/**
 * `CategoryService`: create, rename, delete and look up a user's categories,
 * keeping each user's category names distinct ignoring case, and seed the
 * four defaults into an empty table.
 */
module CategoryServiceModel {
  import opened Wrappers
  import opened Users
  import opened Text
  import opened CategoryEntity
  import opened CategoryRequestRules

  const DuplicateNameMessage: string := "Category with this name already exists"
  const DefaultColor: string := "#6366f1"
  const DefaultIcon: string := "folder"

  /** `findByIdAndUser(id, user)`: the position of the user's category with that id. */
  function FindCategory(cs: seq<Category>, id: int, user: UserId): (r: Option<nat>)
    ensures r.Some? ==> r.value < |cs| && cs[r.value].id == id && cs[r.value].owner == user
    ensures r.None? ==> forall i :: 0 <= i < |cs| ==> !(cs[i].id == id && cs[i].owner == user)
  {
    if cs == [] then None
    else if cs[0].id == id && cs[0].owner == user then Some(0)
    else match FindCategory(cs[1..], id, user)
      case Some(i) => Some(i + 1)
      case None => None
  }

  /** `existsByUserAndNameIgnoreCase(user, name)` */
  predicate NameTaken(cs: seq<Category>, user: UserId, name: string) {
    exists i :: 0 <= i < |cs| && cs[i].owner == user && EqualsIgnoreCase(cs[i].name, name)
  }

  /** `countByUser(user)` */
  function CountOwned(cs: seq<Category>, user: UserId): nat {
    if cs == [] then 0 else (if cs[0].owner == user then 1 else 0) + CountOwned(cs[1..], user)
  }

  /** The count is zero exactly when no category belongs to the user. */
  lemma {:induction false} CountOwnedZero(cs: seq<Category>, user: UserId)
    ensures CountOwned(cs, user) == 0 <==> forall i :: 0 <= i < |cs| ==> cs[i].owner != user
  {
    if cs != [] {
      CountOwnedZero(cs[1..], user);
      assert forall i :: 1 <= i < |cs| ==> cs[i] == cs[1..][i - 1];
    }
  }

  /** `saveAll`: the records receive consecutive ids from `firstId` on. */
  function Numbered(cs: seq<Category>, firstId: int): (r: seq<Category>)
    ensures |r| == |cs|
    ensures forall i :: 0 <= i < |cs| ==> r[i] == cs[i].(id := firstId + i)
  {
    if cs == [] then [] else [cs[0].(id := firstId)] + Numbered(cs[1..], firstId + 1)
  }

  /** Names equal ignoring case to one name are equal ignoring case to each other. */
  lemma SameNameIgnoringCase(a: string, b: string, c: string)
    requires EqualsIgnoreCase(a, b)
    ensures EqualsIgnoreCase(a, c) <==> EqualsIgnoreCase(b, c)
  {
  }

  class CategoryService {
    /** The category table, every user's categories together. */
    var categories: seq<Category>
    /** The id the next saved category receives. */
    var nextId: int

    /** Ids are positive, below `nextId` and distinct; names are unique per user ignoring case. */
    predicate Valid()
      reads this
    {
      && nextId >= 1
      && (forall i :: 0 <= i < |categories| ==> 1 <= categories[i].id < nextId)
      && (forall i, j :: 0 <= i < j < |categories| ==> categories[i].id != categories[j].id)
      && UniqueNamesPerUser(categories)
    }

    constructor()
      ensures Valid() && categories == [] && nextId == 1
    {
      categories := [];
      nextId := 1;
    }

    /** `getCategoryById`: the category with that id when the user owns it. */
    function GetCategoryById(id: int, user: UserId): (r: Result<Category>)
      reads this
      ensures r.Success? <==> exists i :: 0 <= i < |categories| && categories[i].id == id && categories[i].owner == user
      ensures r.Success? ==> r.value in categories && r.value.id == id && r.value.owner == user
      ensures r.Failure? ==> r.error == ResourceNotFound("Category", id)
    {
      match FindCategory(categories, id, user)
      case Some(i) => Success(categories[i])
      case None => Failure(ResourceNotFound("Category", id))
    }

    /**
     * `createCategory`: rejected when the user already has the name in any
     * case; otherwise saved with the next id, the default colour and icon
     * standing in for missing ones.
     */
    method CreateCategory(request: CategoryRequest, user: UserId) returns (r: Result<Category>)
      requires Valid() && ValidCategoryRequest(request)
      modifies this
      ensures Valid()
      ensures NameTaken(old(categories), user, request.name.value) ==>
        r == Failure(BadRequest(DuplicateNameMessage)) && categories == old(categories) && nextId == old(nextId)
      ensures !NameTaken(old(categories), user, request.name.value) ==>
        && r == Success(Category(old(nextId), user, request.name.value, request.color.GetOr(DefaultColor), request.icon.GetOr(DefaultIcon)))
        && categories == old(categories) + [r.value] && nextId == old(nextId) + 1
    {
      var name := request.name.value;
      if NameTaken(categories, user, name) {
        return Failure(BadRequest(DuplicateNameMessage));
      }
      var c := Category(nextId, user, name, request.color.GetOr(DefaultColor), request.icon.GetOr(DefaultIcon));
      forall i | 0 <= i < |categories| && categories[i].owner == user ensures !EqualsIgnoreCase(categories[i].name, c.name) {
      }
      categories := categories + [c];
      nextId := nextId + 1;
      r := Success(c);
    }

    /**
     * `updateCategory`: the user's category with that id takes the new name,
     * and the colour and icon the request holds; a new name equal ignoring
     * case to another of the user's categories is rejected, while a change
     * of case alone is allowed.
     */
    method UpdateCategory(id: int, request: CategoryRequest, user: UserId) returns (r: Result<Category>)
      requires Valid() && ValidCategoryRequest(request)
      modifies this
      ensures Valid()
      ensures nextId == old(nextId)
      ensures match FindCategory(old(categories), id, user)
        case None =>
          r == Failure(ResourceNotFound("Category", id)) && categories == old(categories)
        case Some(i) =>
          var before := old(categories)[i];
          if !EqualsIgnoreCase(before.name, request.name.value) && NameTaken(old(categories), user, request.name.value) then
            r == Failure(BadRequest(DuplicateNameMessage)) && categories == old(categories)
          else
            && r == Success(before.(name := request.name.value, color := request.color.GetOr(before.color), icon := request.icon.GetOr(before.icon)))
            && categories == old(categories)[i := r.value]
    {
      var found := FindCategory(categories, id, user);
      if found.None? {
        return Failure(ResourceNotFound("Category", id));
      }
      var i := found.value;
      var c := categories[i];
      var name := request.name.value;
      if !EqualsIgnoreCase(c.name, name) && NameTaken(categories, user, name) {
        return Failure(BadRequest(DuplicateNameMessage));
      }
      var updated := c.(name := name, color := request.color.GetOr(c.color), icon := request.icon.GetOr(c.icon));
      RenameKeepsUnique(categories, i, updated);
      categories := categories[i := updated];
      r := Success(updated);
    }

    /** `deleteCategory`: the user's category with that id is removed, the others keep their order. */
    method DeleteCategory(id: int, user: UserId) returns (r: Option<Error>)
      requires Valid()
      modifies this
      ensures Valid()
      ensures nextId == old(nextId)
      ensures match FindCategory(old(categories), id, user)
        case None => r == Some(ResourceNotFound("Category", id)) && categories == old(categories)
        case Some(i) => r.None? && categories == old(categories)[..i] + old(categories)[i + 1..]
    {
      var found := FindCategory(categories, id, user);
      if found.None? {
        return Some(ResourceNotFound("Category", id));
      }
      var i := found.value;
      RemoveKeepsValid(categories, i, nextId);
      categories := categories[..i] + categories[i + 1..];
      r := None;
    }

    /**
     * `createDefaultCategories`: the four defaults are saved only when the
     * user has no category at all, so calling it again changes nothing.
     */
    method CreateDefaultCategories(user: UserId)
      requires Valid()
      modifies this
      ensures Valid()
      ensures CountOwned(old(categories), user) == 0 ==>
        categories == old(categories) + Numbered(CreateDefaults(user), old(nextId)) && nextId == old(nextId) + 4
      ensures CountOwned(old(categories), user) != 0 ==> categories == old(categories) && nextId == old(nextId)
      ensures CountOwned(categories, user) != 0
    {
      if CountOwned(categories, user) == 0 {
        CountOwnedZero(categories, user);
        var defaults := Numbered(CreateDefaults(user), nextId);
        SeedKeepsValid(categories, user, nextId);
        categories := categories + defaults;
        nextId := nextId + 4;
        CountOwnedAppend(old(categories), defaults, user);
      }
    }
  }

  /** A rename that passes the duplicate check keeps the names unique per user. */
  lemma RenameKeepsUnique(cs: seq<Category>, i: nat, updated: Category)
    requires UniqueNamesPerUser(cs) && i < |cs| && updated.owner == cs[i].owner
    requires EqualsIgnoreCase(cs[i].name, updated.name) || !NameTaken(cs, updated.owner, updated.name)
    ensures UniqueNamesPerUser(cs[i := updated])
  {
    var cs' := cs[i := updated];
    forall j, k | 0 <= j < k < |cs'| && cs'[j].owner == cs'[k].owner
      ensures !EqualsIgnoreCase(cs'[j].name, cs'[k].name)
    {
      if j == i || k == i {
        var other := if j == i then k else j;
        if EqualsIgnoreCase(cs[i].name, updated.name) {
          SameNameIgnoringCase(cs[i].name, updated.name, cs[other].name);
          if j == i {
            assert !EqualsIgnoreCase(cs[i].name, cs[other].name);
          } else {
            assert !EqualsIgnoreCase(cs[other].name, cs[i].name);
          }
        }
      }
    }
  }

  /** Removing one category keeps ids and names as `Valid` wants them. */
  lemma RemoveKeepsValid(cs: seq<Category>, i: nat, nextId: int)
    requires i < |cs| && UniqueNamesPerUser(cs)
    requires forall k :: 0 <= k < |cs| ==> 1 <= cs[k].id < nextId
    requires forall j, k :: 0 <= j < k < |cs| ==> cs[j].id != cs[k].id
    ensures var rest := cs[..i] + cs[i + 1..];
      && UniqueNamesPerUser(rest)
      && (forall k :: 0 <= k < |rest| ==> 1 <= rest[k].id < nextId)
      && (forall j, k :: 0 <= j < k < |rest| ==> rest[j].id != rest[k].id)
  {
    var rest := cs[..i] + cs[i + 1..];
    assert forall k :: 0 <= k < |rest| ==> rest[k] == cs[if k < i then k else k + 1];
  }

  /** Seeding the defaults into a user without categories keeps ids and names as `Valid` wants them. */
  lemma SeedKeepsValid(cs: seq<Category>, user: UserId, nextId: int)
    requires UniqueNamesPerUser(cs) && forall k :: 0 <= k < |cs| ==> cs[k].owner != user
    requires forall k :: 0 <= k < |cs| ==> 1 <= cs[k].id < nextId
    requires forall j, k :: 0 <= j < k < |cs| ==> cs[j].id != cs[k].id
    requires nextId >= 1
    ensures var all := cs + Numbered(CreateDefaults(user), nextId);
      && UniqueNamesPerUser(all)
      && (forall k :: 0 <= k < |all| ==> 1 <= all[k].id < nextId + 4)
      && (forall j, k :: 0 <= j < k < |all| ==> all[j].id != all[k].id)
  {
    DefaultsDistinct(user);
    AppendOwnKeepsValid(cs, CreateDefaults(user), user, nextId);
  }

  /** Appending, with fresh ids, records of one new owner whose names are distinct keeps ids and names valid. */
  lemma AppendOwnKeepsValid(cs: seq<Category>, added: seq<Category>, user: UserId, nextId: int)
    requires UniqueNamesPerUser(cs) && forall k :: 0 <= k < |cs| ==> cs[k].owner != user
    requires forall k :: 0 <= k < |cs| ==> 1 <= cs[k].id < nextId
    requires forall j, k :: 0 <= j < k < |cs| ==> cs[j].id != cs[k].id
    requires nextId >= 1
    requires NamesDistinctIgnoringCase(added) && forall k :: 0 <= k < |added| ==> added[k].owner == user
    ensures var all := cs + Numbered(added, nextId);
      && UniqueNamesPerUser(all)
      && (forall k :: 0 <= k < |all| ==> 1 <= all[k].id < nextId + |added|)
      && (forall j, k :: 0 <= j < k < |all| ==> all[j].id != all[k].id)
  {
    var ds := Numbered(added, nextId);
    var all := cs + ds;
    forall j, k | 0 <= j < k < |all| && all[j].owner == all[k].owner
      ensures !EqualsIgnoreCase(all[j].name, all[k].name)
    {
      if k >= |cs| && j >= |cs| {
        assert all[j].name == added[j - |cs|].name;
        assert all[k].name == added[k - |cs|].name;
      }
    }
  }

  lemma {:induction false} CountOwnedAppend(cs: seq<Category>, ds: seq<Category>, user: UserId)
    ensures CountOwned(cs + ds, user) == CountOwned(cs, user) + CountOwned(ds, user)
  {
    if cs != [] {
      assert (cs + ds)[1..] == cs[1..] + ds;
      CountOwnedAppend(cs[1..], ds, user);
    } else {
      assert cs + ds == ds;
    }
  }
}
