/**
 * The Dashboard page: the first ten of the birthdays the server reports for
 * the next 30 days, a three-way badge, and the stricter import dialog.
 */
module DashboardPageModel {
  import opened Wrappers
  import opened Seqs
  import opened PageViews
  import opened ImportDialog

  const ShownCount: nat := 10

  /** `upcoming.slice(0, 10)`. */
  function FirstTen(s: seq<BirthdayView>): (r: seq<BirthdayView>)
    ensures |r| == if |s| < ShownCount then |s| else ShownCount
    ensures r == s[..|r|]
  {
    if |s| <= ShownCount then s else s[..ShownCount]
  }

  /** On a list sorted soonest first, no record left out comes before a record shown. */
  lemma FirstTenAreSoonest(s: seq<BirthdayView>)
    requires SortedBy(s, DaysKey)
    ensures forall i, j :: 0 <= i < |FirstTen(s)| <= j < |s| ==> FirstTen(s)[i].daysUntilBirthday <= s[j].daysUntilBirthday
  {
    var r := FirstTen(s);
    forall i, j | 0 <= i < |r| <= j < |s| ensures r[i].daysUntilBirthday <= s[j].daysUntilBirthday {
      assert r[i] == s[i];
      assert DaysKey(s[i]) <= DaysKey(s[j]);
    }
  }

  const NeutralClass: string := "text-dark-200 bg-dark-600"

  /** The Dashboard's `getDaysLabel`: one class for everything past tomorrow. */
  function GetDaysLabel(days: int): (r: DaysLabel)
    ensures r.text == DaysText(days)
    ensures days != 0 && days != 1 ==> r.className == NeutralClass
  {
    if days == 0 then DaysLabel("Today!", TodayClass)
    else if days == 1 then DaysLabel("Tomorrow", TomorrowClass)
    else DaysLabel(DaysText(days), NeutralClass)
  }

  /** The badge tells the days apart by its text alone, whatever its class. */
  lemma LabelsDistinct(a: int, b: int)
    requires a != b
    ensures GetDaysLabel(a) != GetDaysLabel(b)
  {
    if GetDaysLabel(a).text == GetDaysLabel(b).text {
      DaysTextInjective(a, b);
    }
  }

  class DashboardPage {
    var upcomingBirthdays: seq<BirthdayView>
    var loading: bool

    /**
     * Mounting the page: the list starts empty and loading, then the
     * `getUpcoming(30)` request ends as `response`.
     */
    constructor(response: Fetch<seq<BirthdayView>>)
      ensures upcomingBirthdays == if response.Loaded? then FirstTen(response.data.GetOr([])) else []
      ensures !loading
    {
      upcomingBirthdays := [];
      loading := true;
      new;
      FetchDashboardData(response);
    }

    /**
     * `fetchDashboardData`: a loaded answer (`null` read as empty) replaces
     * the list by its first ten records; a failed one leaves the list alone.
     * Loading ends either way.
     */
    method FetchDashboardData(response: Fetch<seq<BirthdayView>>)
      modifies this
      ensures upcomingBirthdays == if response.Loaded? then FirstTen(response.data.GetOr([])) else old(upcomingBirthdays)
      ensures !loading
    {
      if response.Loaded? {
        var upcoming := response.data.GetOr([]);
        upcomingBirthdays := FirstTen(upcoming);
      }
      loading := false;
    }

    /** The import button: this page's dialog takes only the media type `text/csv`. */
    method OpenImportModal() returns (m: ImportModal)
      ensures fresh(m) && !m.lenient && m.file == None && m.result == None && !m.importing
    {
      m := new ImportModal(false);
    }
  }
}
