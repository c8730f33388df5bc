/** The `Category` entity: a user's named, coloured grouping of birthdays. */
module CategoryEntity {
  import opened Users
  import opened Text

  /** Id 0 stands for an entity that has not been saved yet (a null JPA id). */
  datatype Category = Category(id: int, owner: UserId, name: string, color: string, icon: string)

  /** Names are pairwise distinct, ignoring case. */
  predicate NamesDistinctIgnoringCase(cs: seq<Category>) {
    forall i, j :: 0 <= i < j < |cs| ==> !EqualsIgnoreCase(cs[i].name, cs[j].name)
  }

  /** Within one user's categories no two names are equal ignoring case. */
  predicate UniqueNamesPerUser(cs: seq<Category>) {
    forall i, j :: 0 <= i < j < |cs| && cs[i].owner == cs[j].owner ==> !EqualsIgnoreCase(cs[i].name, cs[j].name)
  }

  lemma DifferentIgnoringCase(a: string, b: string)
    requires |a| != |b| || (|a| > 0 && |b| > 0 && LowerChar(a[0]) != LowerChar(b[0]))
    ensures !EqualsIgnoreCase(a, b)
  {
    if |a| == |b| {
      assert Lower(a)[0] != Lower(b)[0];
    }
  }

  /** `Category.createDefaults(user)`: the four categories a new user starts with. */
  function CreateDefaults(owner: UserId): (r: seq<Category>)
    ensures |r| == 4
    ensures forall i :: 0 <= i < |r| ==> r[i].owner == owner && r[i].id == 0
  {
    [ Category(0, owner, "Family", "#ef4444", "heart"),
      Category(0, owner, "Friends", "#3b82f6", "users"),
      Category(0, owner, "Work", "#10b981", "briefcase"),
      Category(0, owner, "College", "#f59e0b", "graduation-cap") ]
  }

  /** The default names are pairwise distinct, ignoring case. */
  lemma DefaultsDistinct(owner: UserId)
    ensures NamesDistinctIgnoringCase(CreateDefaults(owner))
  {
    var r := CreateDefaults(owner);
    var names := [r[0].name, r[1].name, r[2].name, r[3].name];
    assert names == ["Family", "Friends", "Work", "College"];
    forall i, j | 0 <= i < j < 4 ensures !EqualsIgnoreCase(names[i], names[j]) {
      DifferentIgnoringCase(names[i], names[j]);
    }
  }

  /** The defaults, in order: Family, Friends, Work, College with their colours and icons. */
  lemma DefaultsContent(owner: UserId)
    ensures var r := CreateDefaults(owner);
      && [r[0].name, r[1].name, r[2].name, r[3].name] == ["Family", "Friends", "Work", "College"]
      && [r[0].color, r[1].color, r[2].color, r[3].color] == ["#ef4444", "#3b82f6", "#10b981", "#f59e0b"]
      && [r[0].icon, r[1].icon, r[2].icon, r[3].icon] == ["heart", "users", "briefcase", "graduation-cap"]
  {
  }
}
