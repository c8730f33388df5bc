/**
 * `NotificationSettingsService`: reads a user's reminder preferences, creating
 * the defaults on first access, and applies a validated partial update.
 */
module NotificationSettingsServiceModel {
  import opened Wrappers
  import opened Users
  import opened Numbers
  import opened NotificationSettingsEntity
  import Seqs

  /** The update request; `None` stands for a field the client left `null`. */
  datatype NotificationSettingsRequest = NotificationSettingsRequest(
    notificationDays: Option<seq<int>>,
    emailEnabled: Option<bool>,
    emailTemplate: Option<string>,
    notificationTime: Option<string>)

  /** What the service returns: the stored fields with the days decoded. */
  datatype NotificationSettingsResponse = NotificationSettingsResponse(
    id: int,
    notificationDays: seq<int>,
    emailEnabled: bool,
    emailTemplate: string,
    notificationTime: string)

  /** The four editable fields of a settings record, as a value. */
  datatype Preferences = Preferences(
    notificationDays: string,
    emailEnabled: bool,
    emailTemplate: string,
    notificationTime: string)

  const DefaultPreferences: Preferences := Preferences(DefaultDays, true, DefaultTemplate, DefaultTime)

  const DaysRangeMessage: string := "Notification days must be between 0 and 30"

  /** Every requested day lies in `0..30`. */
  predicate DaysInRange(days: seq<int>) {
    forall i :: 0 <= i < |days| ==> 0 <= days[i] <= 30
  }

  /** The request passes the range check: no days given, or all of them in range. */
  predicate Accepted(request: NotificationSettingsRequest) {
    request.notificationDays.Some? ==> DaysInRange(request.notificationDays.value)
  }

  /** The partial update: each field the request holds replaces the stored one, the others stay. */
  function Apply(p: Preferences, request: NotificationSettingsRequest): Preferences {
    Preferences(
      if request.notificationDays.Some? then EncodeDays(request.notificationDays.value) else p.notificationDays,
      request.emailEnabled.GetOr(p.emailEnabled),
      request.emailTemplate.GetOr(p.emailTemplate),
      request.notificationTime.GetOr(p.notificationTime))
  }

  /** A request with every field `null` changes nothing. */
  lemma ApplyEmpty(p: Preferences)
    ensures Apply(p, NotificationSettingsRequest(None, None, None, None)) == p
  {
  }

  /** Sending the same request twice has the effect of sending it once. */
  lemma ApplyIdempotent(p: Preferences, request: NotificationSettingsRequest)
    ensures Apply(Apply(p, request), request) == Apply(p, request)
  {
  }

  /**
   * After an accepted update, the stored days decode again: to the requested
   * days sorted ascending, to `[1]` when the request held an empty list, and
   * otherwise to whatever they decoded to before.
   */
  lemma AppliedDaysDecode(p: Preferences, request: NotificationSettingsRequest)
    requires Accepted(request)
    ensures DecodeDays(Apply(p, request).notificationDays) ==
      match request.notificationDays
      case None => DecodeDays(p.notificationDays)
      case Some(days) => Some(if days == [] then [1] else Sorted(days))
  {
    if request.notificationDays.Some? {
      var days := request.notificationDays.value;
      assert AllInt32(days) by {
        forall i | 0 <= i < |days| ensures IsInt32(days[i]) {
          assert 0 <= days[i] <= 30;
        }
      }
      DecodeEncode(days);
    }
  }

  /** Defaults with an accepted update applied still hold days that decode. */
  lemma DefaultsUpdatedDecode(request: NotificationSettingsRequest)
    requires Accepted(request)
    ensures DecodeDays(Apply(DefaultPreferences, request).notificationDays).Some?
  {
    DefaultDaysList();
    AppliedDaysDecode(DefaultPreferences, request);
  }

  class NotificationSettingsService {
    /** `notification_settings`, keyed by the owning user (`user_id` is unique). */
    var store: map<UserId, NotificationSettings>
    /** The id the next saved record receives. */
    var nextId: int

    /** Every record belongs to the user it is filed under, and its days decode. */
    ghost predicate Valid()
      reads this, store.Values
    {
      forall u :: u in store ==> store[u].owner == u && DecodeDays(store[u].notificationDays).Some?
    }

    constructor()
      ensures Valid() && store == map[] && nextId == 1
    {
      store := map[];
      nextId := 1;
    }

    /** The editable fields of a record. */
    static function PreferencesOf(s: NotificationSettings): Preferences
      reads s
    {
      Preferences(s.notificationDays, s.emailEnabled, s.emailTemplate, s.notificationTime)
    }

    /** `NotificationSettingsResponse.fromEntity`. */
    static function FromEntity(s: NotificationSettings): (r: NotificationSettingsResponse)
      reads s
      requires DecodeDays(s.notificationDays).Some?
      ensures Some(r.notificationDays) == DecodeDays(s.notificationDays)
      ensures r.id == s.id && Preferences(s.notificationDays, r.emailEnabled, r.emailTemplate, r.notificationTime) == PreferencesOf(s)
    {
      NotificationSettingsResponse(s.id, DecodeDays(s.notificationDays).value, s.emailEnabled, s.emailTemplate, s.notificationTime)
    }

    /** `settingsRepository.save` of a record not stored yet: it receives the next id and is filed under its owner. */
    method Insert(s: NotificationSettings)
      requires Valid() && s.owner !in store && DecodeDays(s.notificationDays).Some?
      modifies this, s
      ensures Valid()
      ensures store == old(store)[s.owner := s] && nextId == old(nextId) + 1
      ensures s.id == old(nextId) && PreferencesOf(s) == old(PreferencesOf(s)) && s.owner == old(s.owner)
    {
      s.id := nextId;
      nextId := nextId + 1;
      store := store[s.owner := s];
    }

    /**
     * `getSettings`: the user's record, created with the defaults and saved
     * when there is none; an existing record is returned as it is, so a
     * second call creates nothing.
     */
    method GetSettings(user: UserId) returns (r: NotificationSettingsResponse)
      requires Valid()
      modifies this
      ensures Valid()
      ensures user in store && r == FromEntity(store[user])
      ensures old(user in store) ==> store == old(store) && nextId == old(nextId)
      ensures !old(user in store) ==>
        && fresh(store[user]) && store == old(store)[user := store[user]] && nextId == old(nextId) + 1
        && store[user].id == old(nextId) && PreferencesOf(store[user]) == DefaultPreferences
    {
      if user !in store {
        var s := new NotificationSettings.CreateDefault(user);
        DefaultDaysList();
        Insert(s);
      }
      r := FromEntity(store[user]);
    }

    /**
     * `updateSettings`: a requested day outside `0..30` is rejected before
     * anything changes; otherwise the request is applied to the user's
     * record, or to fresh defaults when there is none, and saved.
     */
    method UpdateSettings(request: NotificationSettingsRequest, user: UserId) returns (r: Result<NotificationSettingsResponse>)
      requires Valid()
      modifies this, if user in store then {store[user]} else {}
      ensures Valid()
      ensures !Accepted(request) ==>
        && r == Failure(BadRequest(DaysRangeMessage)) && store == old(store) && nextId == old(nextId)
        && (user in store ==> PreferencesOf(store[user]) == old(PreferencesOf(store[user])))
      ensures Accepted(request) ==> user in store && r == Success(FromEntity(store[user]))
      ensures Accepted(request) && old(user in store) ==>
        && store == old(store) && nextId == old(nextId)
        && PreferencesOf(store[user]) == Apply(old(PreferencesOf(store[user])), request)
      ensures Accepted(request) && !old(user in store) ==>
        && fresh(store[user]) && store == old(store)[user := store[user]] && nextId == old(nextId) + 1
        && store[user].id == old(nextId) && PreferencesOf(store[user]) == Apply(DefaultPreferences, request)
    {
      if request.notificationDays.Some? {
        var inRange := CheckDays(request.notificationDays.value);
        if !inRange {
          return Failure(BadRequest(DaysRangeMessage));
        }
      }
      if user in store {
        r := UpdateStored(request, user);
      } else {
        r := UpdateNew(request, user);
      }
    }

    /** The accepted update of a stored record: changed in place, nothing else changes. */
    method UpdateStored(request: NotificationSettingsRequest, user: UserId) returns (r: Result<NotificationSettingsResponse>)
      requires Valid() && Accepted(request) && user in store
      modifies store[user]
      ensures Valid()
      ensures r == Success(FromEntity(store[user]))
      ensures PreferencesOf(store[user]) == Apply(old(PreferencesOf(store[user])), request)
      ensures store[user].id == old(store[user].id)
    {
      var s := store[user];
      ghost var before := PreferencesOf(s);
      assert forall u :: u in store && u != user ==> store[u] != s;
      ApplyRequest(s, request);
      AppliedDaysDecode(before, request);
      r := Success(FromEntity(s));
    }

    /** The accepted update of a user without a record: applied to fresh defaults, which are then saved. */
    method UpdateNew(request: NotificationSettingsRequest, user: UserId) returns (r: Result<NotificationSettingsResponse>)
      requires Valid() && Accepted(request) && user !in store
      modifies this
      ensures Valid()
      ensures user in store && r == Success(FromEntity(store[user]))
      ensures fresh(store[user]) && store == old(store)[user := store[user]] && nextId == old(nextId) + 1
      ensures store[user].id == old(nextId) && PreferencesOf(store[user]) == Apply(DefaultPreferences, request)
    {
      var s := NewSettings(request, user);
      Insert(s);
      r := Success(FromEntity(s));
    }

    /** A record with the defaults and the accepted request applied, not saved yet. */
    static method NewSettings(request: NotificationSettingsRequest, user: UserId) returns (s: NotificationSettings)
      requires Accepted(request)
      ensures fresh(s) && s.owner == user && DecodeDays(s.notificationDays).Some?
      ensures PreferencesOf(s) == Apply(DefaultPreferences, request)
    {
      s := new NotificationSettings.CreateDefault(user);
      ApplyRequest(s, request);
      DefaultsUpdatedDecode(request);
    }
  }

  /** The setters `updateSettings` calls, one per field the request holds. */
  method ApplyRequest(s: NotificationSettings, request: NotificationSettingsRequest)
    modifies s
    ensures NotificationSettingsService.PreferencesOf(s) == Apply(old(NotificationSettingsService.PreferencesOf(s)), request)
    ensures s.id == old(s.id) && s.owner == old(s.owner)
  {
    if request.notificationDays.Some? {
      s.SetNotificationDaysList(request.notificationDays.value);
    }
    if request.emailEnabled.Some? {
      s.emailEnabled := request.emailEnabled.value;
    }
    if request.emailTemplate.Some? {
      s.emailTemplate := request.emailTemplate.value;
    }
    if request.notificationTime.Some? {
      s.notificationTime := request.notificationTime.value;
    }
  }

  /** The range check loop of `updateSettings`: true exactly when every day lies in `0..30`. */
  method CheckDays(days: seq<int>) returns (ok: bool)
    ensures ok <==> DaysInRange(days)
  {
    for i := 0 to |days|
      invariant DaysInRange(days[..i])
    {
      if days[i] < 0 || days[i] > 30 {
        return false;
      }
    }
    Seqs.TakeAll(days);
    return true;
  }
}
