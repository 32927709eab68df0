/**
 * The birthday reminder page: an in-memory, ordered list of friends with a modal
 * form to add or edit one, deletion after a confirmation, a case-insensitive search
 * and a sort by a chosen column that can be flipped between ascending and descending.
 */
module BirthdayReminder {
  import opened Wrappers
  import opened Seqs
  import opened Strings
  import opened Sorting
  import opened Auth

  datatype Friend = Friend(id: int, firstName: string, lastName: string, phone: string,
                           city: string, birthdate: string, userId: int)

  /** The values of the modal form's five controls; an emptied control holds "". */
  datatype FriendForm = FriendForm(firstName: string, lastName: string, phone: string,
                                   city: string, birthdate: string)

  const BlankForm := FriendForm("", "", "", "", "")

  /** The phone pattern `^07[0-9]{8}$`: a valid number is ten digits starting "07". */
  predicate ValidPhone(p: string): (b: bool)
    ensures b ==> |p| == 10 && AllDigits(p) && p[..2] == "07"
  {
    |p| == 10 && p[0] == '0' && p[1] == '7' && forall i :: 2 <= i < 10 ==> IsDigit(p[i])
  }

  /** A phone number is valid exactly when it is "07" followed by eight digits. */
  lemma ValidPhoneShape(p: string)
    ensures ValidPhone(p) <==> exists d :: |d| == 8 && AllDigits(d) && p == "07" + d
  {
    if ValidPhone(p) {
      var d := p[2..];
      assert AllDigits(d) by {
        forall i | 0 <= i < |d| ensures IsDigit(d[i]) {
          assert d[i] == p[i + 2];
        }
      }
      assert p == "07" + d;
    }
    if exists d :: |d| == 8 && AllDigits(d) && p == "07" + d {
      var d :| |d| == 8 && AllDigits(d) && p == "07" + d;
      forall i | 2 <= i < 10 ensures IsDigit(p[i]) {
        assert p[i] == d[i - 2];
      }
    }
  }

  /** Phone numbers the pattern rejects and accepts. */
  lemma PhoneExamples()
    ensures !ValidPhone("123456789") && !ValidPhone("0812345678") && ValidPhone("0712345678")
  {
  }

  /**
   * The form's validators: both names required with at least two characters, the
   * phone required and matching the pattern, city and birthdate required. The
   * blank form the modal is reset to is never valid.
   */
  predicate FormValid(f: FriendForm): (b: bool)
    ensures b ==> f != BlankForm
    ensures b ==> |f.phone| == 10 && AllDigits(f.phone)
  {
    |f.firstName| >= 2 && |f.lastName| >= 2 && ValidPhone(f.phone) && f.city != "" && f.birthdate != ""
  }

  /** The two records `loadFriends` installs. */
  const Seed: seq<Friend> := [
    Friend(1, "John", "Doe", "0722123456", "Bucharest", "1990-05-15", 1),
    Friend(2, "Jane", "Smith", "0733123456", "Cluj", "1985-12-20", 1)
  ]

  /** The form filled from a friend, as `editFriend` patches it. */
  function FormOf(f: Friend): FriendForm {
    FriendForm(f.firstName, f.lastName, f.phone, f.city, f.birthdate)
  }

  /** `{...editing, ...formValue}`: the form's fields over the edited record, which keeps its id and owner. */
  function Merge(editing: Friend, f: FriendForm): (r: Friend)
    ensures r.id == editing.id && r.userId == editing.userId
    ensures FormOf(r) == f
  {
    Friend(editing.id, f.firstName, f.lastName, f.phone, f.city, f.birthdate, editing.userId)
  }

  /** Saving an edit form that was not changed gives back the record that was edited. */
  lemma MergeUnchangedForm(f: Friend)
    ensures Merge(f, FormOf(f)) == f
  {
  }

  /** `currentUser?.id || 1`: the signed-in user's id, or 1 when there is none or it is 0. */
  function OwnerId(currentUser: Option<User>): (r: int)
    ensures r != 0
    ensures currentUser.Some? && currentUser.value.id != 0 ==> r == currentUser.value.id
    ensures currentUser == None || currentUser.value.id == 0 ==> r == 1
  {
    if currentUser.Some? && currentUser.value.id != 0 then currentUser.value.id else 1
  }

  /** The record `saveFriend` appends: the time as id, the form's fields and the owner. */
  function NewFriend(now: int, f: FriendForm, owner: int): (r: Friend)
    ensures r.id == now && r.userId == owner && FormOf(r) == f
  {
    Friend(now, f.firstName, f.lastName, f.phone, f.city, f.birthdate, owner)
  }

  /** `friends.map(f => f.id === updated.id ? updated : f)`. */
  function ReplaceById(s: seq<Friend>, updated: Friend): (r: seq<Friend>)
    ensures |r| == |s|
    ensures forall i :: 0 <= i < |s| && s[i].id == updated.id ==> r[i] == updated
    ensures forall i :: 0 <= i < |s| && s[i].id != updated.id ==> r[i] == s[i]
  {
    if s == [] then []
    else [if s[0].id == updated.id then updated else s[0]] + ReplaceById(s[1..], updated)
  }

  /** Replacing by an id that no record has leaves the list as it was. */
  lemma ReplaceAbsentId(s: seq<Friend>, updated: Friend)
    requires forall i :: 0 <= i < |s| ==> s[i].id != updated.id
    ensures ReplaceById(s, updated) == s
  {
  }

  /** `friends.filter(f => f.id !== id)`. */
  function RemoveById(s: seq<Friend>, id: int): seq<Friend> {
    Keep(s, (f: Friend) => f.id != id)
  }

  /**
   * Deleting removes every record with the id and nothing else: the result is the
   * subsequence of the list at the returned positions, which are exactly those whose
   * record has a different id; and when no record has the id the list is unchanged.
   */
  lemma RemoveByIdSpec(s: seq<Friend>, id: int) returns (idx: seq<nat>)
    ensures forall f :: f in RemoveById(s, id) ==> f in s && f.id != id
    ensures IncreasingPositions(idx, |s|) && |idx| == |RemoveById(s, id)|
    ensures forall k :: 0 <= k < |idx| ==> RemoveById(s, id)[k] == s[idx[k]]
    ensures forall i :: 0 <= i < |s| ==> (s[i].id != id <==> i in idx)
    ensures (forall i :: 0 <= i < |s| ==> s[i].id != id) ==> RemoveById(s, id) == s
  {
    var p := (f: Friend) => f.id != id;
    idx := KeepPositions(s, p);
    if forall i :: 0 <= i < |s| ==> s[i].id != id {
      KeepAll(s, p);
    }
  }

  /** The search: the lower-cased term occurs in the lower-cased first name, last name or city. */
  predicate Matches(f: Friend, term: string): (b: bool)
    ensures term == "" ==> b
    ensures b ==> |term| <= |f.firstName| || |term| <= |f.lastName| || |term| <= |f.city|
  {
    var t := Lower(term);
    ContainsLength(Lower(f.firstName), t);
    ContainsLength(Lower(f.lastName), t);
    ContainsLength(Lower(f.city), t);
    Contains(Lower(f.firstName), t) || Contains(Lower(f.lastName), t) || Contains(Lower(f.city), t)
  }

  /** `filteredFriends`: the friends that match the term, in list order. */
  function Filter(s: seq<Friend>, term: string): seq<Friend> {
    Keep(s, (f: Friend) => Matches(f, term))
  }

  /**
   * The filter keeps exactly the matching records, in order: its result is the
   * subsequence of the list at the returned positions, and a position is among them
   * if and only if its record matches.
   */
  lemma FilterSpec(s: seq<Friend>, term: string) returns (idx: seq<nat>)
    ensures forall f :: f in Filter(s, term) ==> f in s && Matches(f, term)
    ensures IncreasingPositions(idx, |s|) && |idx| == |Filter(s, term)|
    ensures forall k :: 0 <= k < |idx| ==> Filter(s, term)[k] == s[idx[k]]
    ensures forall i :: 0 <= i < |s| ==> (Matches(s[i], term) <==> i in idx)
  {
    idx := KeepPositions(s, (f: Friend) => Matches(f, term));
  }

  /** No matching record is dropped by the filter. */
  lemma FilterComplete(s: seq<Friend>, term: string)
    ensures forall i :: 0 <= i < |s| && Matches(s[i], term) ==> s[i] in Filter(s, term)
  {
    var idx := FilterSpec(s, term);
    forall i | 0 <= i < |s| && Matches(s[i], term)
      ensures s[i] in Filter(s, term)
    {
      var k :| 0 <= k < |idx| && idx[k] == i;
      assert Filter(s, term)[k] == s[i];
    }
  }

  /** An empty search term shows the whole list. */
  lemma FilterEmptyTerm(s: seq<Friend>, term: string)
    ensures term == "" ==> Filter(s, term) == s
  {
    if term == "" {
      forall i | 0 <= i < |s|
        ensures Matches(s[i], "")
      {
        ContainsEmpty(Lower(s[i].firstName));
      }
      KeepAll(s, (f: Friend) => Matches(f, ""));
    }
  }

  /**
   * The search ignores case on both sides: a term and its lower-cased form find
   * the same friends, and so does a friend whose names and city are lower-cased.
   */
  lemma MatchesCaseInsensitive(f: Friend, term: string)
    ensures Matches(f, term) == Matches(f, Lower(term))
    ensures Matches(f, term) ==
            Matches(f.(firstName := Lower(f.firstName), lastName := Lower(f.lastName), city := Lower(f.city)), term)
  {
    LowerIdempotent(term);
    LowerIdempotent(f.firstName);
    LowerIdempotent(f.lastName);
    LowerIdempotent(f.city);
  }

  /** On the seed list, "cluj" finds only Jane Smith. */
  lemma FilterSeedCluj()
    ensures Filter(Seed, "cluj") == [Seed[1]]
  {
    SeedJohnNotCluj();
    SeedJaneCluj();
    FilterPair(Seed[0], Seed[1], "cluj");
    assert Seed == [Seed[0], Seed[1]];
  }

  lemma SeedJohnNotCluj()
    ensures !Matches(Seed[0], "cluj")
  {
    assert Lower("cluj") == "cluj";
    assert Lower("John") == "john" && Lower("Doe") == "doe" && Lower("Bucharest") == "bucharest";
    MissingChar("john", "cluj", 'c');
    MissingChar("doe", "cluj", 'c');
    MissingChar("bucharest", "cluj", 'l');
  }

  lemma SeedJaneCluj()
    ensures Matches(Seed[1], "cluj")
  {
    assert Lower("cluj") == "cluj" && Lower("Cluj") == "cluj";
    assert Contains("cluj", "cluj");
  }

  /** On the seed list, "o" finds John Doe only: neither "Jane", "Smith" nor "Cluj" has an o. */
  lemma FilterSeedO()
    ensures Filter(Seed, "o") == [Seed[0]]
  {
    SeedJohnO();
    SeedJaneNotO();
    FilterPair(Seed[0], Seed[1], "o");
    assert Seed == [Seed[0], Seed[1]];
  }

  lemma SeedJohnO()
    ensures Matches(Seed[0], "o")
  {
    assert Lower("o") == "o" && Lower("John") == "john";
    assert Contains("john", "o") by {
      assert OccursAt("john", "o", 1);
      ContainsAt("john", "o");
    }
  }

  lemma SeedJaneNotO()
    ensures !Matches(Seed[1], "o")
  {
    assert Lower("o") == "o";
    assert Lower("Jane") == "jane" && Lower("Smith") == "smith" && Lower("Cluj") == "cluj";
    MissingChar("jane", "o", 'o');
    MissingChar("smith", "o", 'o');
    MissingChar("cluj", "o", 'o');
  }

  lemma FilterPair(a: Friend, b: Friend, term: string)
    ensures Filter([a, b], term) == (if Matches(a, term) then [a] else []) + (if Matches(b, term) then [b] else [])
  {
    var p := (f: Friend) => Matches(f, term);
    KeepCons(a, [b], p);
    KeepCons(b, [], p);
    assert [a, b] == [a] + [b];
  }

  /** A string cannot contain a text with a character the string lacks. */
  lemma MissingChar(s: string, sub: string, c: char)
    requires c in sub && c !in s
    ensures !Contains(s, sub)
  {
    forall i | 0 <= i <= |s| - |sub|
      ensures !OccursAt(s, sub, i)
    {
      assert forall x :: x in s[i..i + |sub|] ==> x in s;
    }
    ContainsAt(s, sub);
  }

  datatype Direction = Asc | Desc

  function Flip(d: Direction): Direction {
    if d == Asc then Desc else Asc
  }

  /**
   * The text a column is sorted by: `friend[field]?.toString().toLowerCase() || ''`,
   * the empty string for a name that is not one of the record's fields.
   */
  function SortKey(f: Friend, field: string): (r: string)
    ensures forall i :: 0 <= i < |r| ==> !IsUpper(r[i])
    ensures field !in {"id", "firstName", "lastName", "phone", "city", "birthdate", "userId"} ==> r == ""
    ensures field in {"id", "userId"} ==> r != ""
  {
    match field
    case "id" => IntToString(f.id)
    case "firstName" => Lower(f.firstName)
    case "lastName" => Lower(f.lastName)
    case "phone" => Lower(f.phone)
    case "city" => Lower(f.city)
    case "birthdate" => Lower(f.birthdate)
    case "userId" => IntToString(f.userId)
    case _ => ""
  }

  /** `sortedFriends` over an already filtered list. */
  function SortFriends(s: seq<Friend>, field: string, dir: Direction): seq<Friend> {
    SortByKey(s, (f: Friend) => SortKey(f, field), dir == Desc)
  }

  ghost predicate SortedBy(s: seq<Friend>, field: string, dir: Direction) {
    SortedByKey(s, (f: Friend) => SortKey(f, field), dir == Desc)
  }

  /** The records of `s` whose sort key on `field` is `k`, in order. */
  function SameKey(s: seq<Friend>, field: string, k: string): seq<Friend> {
    WithKey(s, (f: Friend) => SortKey(f, field), k)
  }

  /**
   * Sorting a list gives a permutation of it, ordered by the column's key in the
   * chosen direction, in which records with equal keys keep their relative order.
   */
  lemma SortFriendsSpec(s: seq<Friend>, field: string, dir: Direction)
    ensures multiset(SortFriends(s, field, dir)) == multiset(s)
    ensures SortedBy(SortFriends(s, field, dir), field, dir)
    ensures forall k :: SameKey(SortFriends(s, field, dir), field, k) == SameKey(s, field, k)
  {
    var key := (f: Friend) => SortKey(f, field);
    SortPermutation(s, key, dir == Desc);
    SortSorted(s, key, dir == Desc);
    forall k ensures SameKey(SortFriends(s, field, dir), field, k) == SameKey(s, field, k) {
      SortStable(s, key, dir == Desc, k);
    }
  }

  /** `sort(clicked)`: the same column flips the direction, another column is selected ascending. */
  function NextSort(field: string, dir: Direction, clicked: string): (r: (string, Direction))
    ensures r.0 == clicked
    ensures field == clicked ==> r.1 != dir
    ensures field != clicked ==> r.1 == Asc
  {
    if field == clicked then (field, Flip(dir)) else (clicked, Asc)
  }

  /**
   * Clicking a column twice: on the current column it restores the direction; on
   * another column it ends on that column, descending.
   */
  lemma NextSortTwice(field: string, dir: Direction, clicked: string)
    ensures var (f1, d1) := NextSort(field, dir, clicked);
            NextSort(f1, d1, clicked) == (if field == clicked then (field, dir) else (clicked, Desc))
  {
  }

  class BirthdayReminderComponent {
    const auth: AuthService
    var friends: seq<Friend>
    var searchTerm: string
    var sortField: string
    var sortDirection: Direction
    var showForm: bool
    var editingFriend: Option<Friend>
    var form: FriendForm

    constructor (auth: AuthService)
      ensures this.auth == auth
      ensures friends == [] && searchTerm == "" && sortField == "firstName" && sortDirection == Asc
      ensures !showForm && editingFriend == None && form == BlankForm
    {
      this.auth := auth;
      friends := [];
      searchTerm := "";
      sortField := "firstName";
      sortDirection := Asc;
      showForm := false;
      editingFriend := None;
      form := BlankForm;
    }

    /** Angular's initialisation hook: loads the list. */
    method OnInit()
      modifies this
      ensures friends == Seed
      ensures searchTerm == old(searchTerm) && sortField == old(sortField) && sortDirection == old(sortDirection)
      ensures showForm == old(showForm) && editingFriend == old(editingFriend) && form == old(form)
    {
      LoadFriends();
    }

    /** Replaces the list by the two seed records, whatever it held. */
    method LoadFriends()
      modifies this
      ensures friends == Seed
      ensures searchTerm == old(searchTerm) && sortField == old(sortField) && sortDirection == old(sortDirection)
      ensures showForm == old(showForm) && editingFriend == old(editingFriend) && form == old(form)
    {
      friends := Seed;
    }

    /** Opens the form empty, for a new friend. */
    method AddFriend()
      modifies this
      ensures editingFriend == None && form == BlankForm && showForm
      ensures friends == old(friends) && searchTerm == old(searchTerm)
      ensures sortField == old(sortField) && sortDirection == old(sortDirection)
    {
      editingFriend := None;
      form := BlankForm;
      showForm := true;
    }

    /** Opens the form filled from `friend`; the list itself is not touched until saving. */
    method EditFriend(friend: Friend)
      modifies this
      ensures editingFriend == Some(friend) && form == FormOf(friend) && showForm
      ensures friends == old(friends) && searchTerm == old(searchTerm)
      ensures sortField == old(sortField) && sortDirection == old(sortDirection)
    {
      editingFriend := Some(friend);
      form := FormOf(friend);
      showForm := true;
    }

    /**
     * Saves the form at time `now`. An invalid form changes nothing. A valid one
     * replaces, in place, every record with the edited record's id by the merged
     * record when editing, or otherwise appends a new record owned by the signed-in
     * user; then the form is closed.
     */
    method SaveFriend(now: int)
      modifies this
      ensures !FormValid(old(form)) ==>
                friends == old(friends) && showForm == old(showForm) &&
                editingFriend == old(editingFriend) && form == old(form)
      ensures FormValid(old(form)) && old(editingFriend).Some? ==>
                friends == ReplaceById(old(friends), Merge(old(editingFriend).value, old(form)))
      ensures FormValid(old(form)) && old(editingFriend) == None ==>
                friends == old(friends) + [NewFriend(now, old(form), OwnerId(auth.GetUserData()))]
      ensures FormValid(old(form)) ==> !showForm && editingFriend == None && form == BlankForm
      ensures searchTerm == old(searchTerm) && sortField == old(sortField) && sortDirection == old(sortDirection)
    {
      if !FormValid(form) {
        return;
      }
      var currentUser := auth.GetUserData();
      if editingFriend.Some? {
        friends := ReplaceById(friends, Merge(editingFriend.value, form));
      } else {
        friends := friends + [NewFriend(now, form, OwnerId(currentUser))];
      }
      CloseModal();
    }

    /** Deletes every record with `id` when the user confirms; otherwise nothing changes. */
    method DeleteFriend(id: int, confirmed: bool)
      modifies this
      ensures friends == if confirmed then RemoveById(old(friends), id) else old(friends)
      ensures searchTerm == old(searchTerm) && sortField == old(sortField) && sortDirection == old(sortDirection)
      ensures showForm == old(showForm) && editingFriend == old(editingFriend) && form == old(form)
    {
      if confirmed {
        friends := RemoveById(friends, id);
      }
    }

    /** Hides the form, forgets the record being edited and empties the form. */
    method CloseModal()
      modifies this
      ensures !showForm && editingFriend == None && form == BlankForm
      ensures friends == old(friends) && searchTerm == old(searchTerm)
      ensures sortField == old(sortField) && sortDirection == old(sortDirection)
    {
      showForm := false;
      editingFriend := None;
      form := BlankForm;
    }

    /** Signs the user out through the service. */
    method Logout()
      modifies auth
      ensures auth.local == EmptyStore && auth.session == EmptyStore && !auth.authenticated
    {
      auth.Logout();
    }

    /** The friends the search shows: exactly the matching records of the list, in list order. */
    function FilteredFriends(): (r: seq<Friend>)
      reads this
      ensures forall f :: f in r ==> f in friends && Matches(f, searchTerm)
      ensures forall i :: 0 <= i < |friends| && Matches(friends[i], searchTerm) ==> friends[i] in r
      ensures searchTerm == "" ==> r == friends
    {
      FilterComplete(friends, searchTerm);
      FilterEmptyTerm(friends, searchTerm);
      Filter(friends, searchTerm)
    }

    /** The shown friends sorted by the selected column and direction; the list itself is not changed. */
    function SortedFriends(): (r: seq<Friend>)
      reads this
      ensures multiset(r) == multiset(FilteredFriends())
      ensures SortedBy(r, sortField, sortDirection)
      ensures forall k :: SameKey(r, sortField, k) == SameKey(FilteredFriends(), sortField, k)
    {
      SortFriendsSpec(FilteredFriends(), sortField, sortDirection);
      SortFriends(FilteredFriends(), sortField, sortDirection)
    }

    /** Column header click: flips the direction on the current column, selects another one ascending. */
    method Sort(field: string)
      modifies this
      ensures (sortField, sortDirection) == NextSort(old(sortField), old(sortDirection), field)
      ensures friends == old(friends) && searchTerm == old(searchTerm)
      ensures showForm == old(showForm) && editingFriend == old(editingFriend) && form == old(form)
    {
      if sortField == field {
        sortDirection := Flip(sortDirection);
      } else {
        sortField := field;
        sortDirection := Asc;
      }
    }
  }
}
