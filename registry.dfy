/**
 * The registry behind the bot: `user_data` (user id to name and list of cow ids), `cow_data`
 * (cow id to name, owner and photo file id) and the list `missing_cows`, taken here as one value.
 * Each operation of the handlers is a function from the old value to the new one; the handler
 * methods that update the registry in place are proved against these functions.
 */
module Registry {
  import opened Common

  type UserId = string
  type CowId = string

  /** An entry of `user_data`: `{"name": ..., "cows": [...]}`. */
  datatype User = User(name: string, cows: seq<CowId>)

  /** An entry of `cow_data`: `{"name": ..., "owner": ..., "photo": ...}`. */
  datatype Cow = Cow(name: string, owner: UserId, photo: string)

  /** The three global collections. */
  datatype Store = Store(users: map<UserId, User>, cows: map<CowId, Cow>, missing: seq<CowId>)

  /** What one photo-with-buttons message of the cow list shows. */
  datatype Card = Card(cowId: CowId, name: string, photo: string)

  /** One missing-cow alert, sent to `recipient`. */
  datatype Alert = Alert(recipient: UserId, cowName: string, photo: string, ownerName: string)

  /** The answer of the identify path when the identified class is enrolled. */
  datatype Sighting = Sighting(cowName: string, ownerName: string, confidence: real)

  /** The registry before anything was loaded or registered. */
  const Empty: Store := Store(map[], map[], [])

  /** The ownership test of `remove_cow` and `mark_missing`: the id is in the caller's list. */
  predicate Owns(s: Store, user: UserId, cowId: CowId)
    requires user in s.users
  {
    cowId in s.users[user].cows
  }

  /** Every cow's owner has a user entry, which the identify path relies on. */
  predicate OwnersKnown(s: Store) {
    forall c :: c in s.cows ==> s.cows[c].owner in s.users
  }

  /** No user's cow list holds an id twice. */
  predicate ListsDeduplicated(s: Store) {
    forall u :: u in s.users ==> NoDuplicates(s.users[u].cows)
  }

  /** The other users' entries are as they were. */
  predicate OthersUnchanged(s: Store, r: Store, user: UserId) {
    forall u :: u in s.users && u != user ==> u in r.users && r.users[u] == s.users[u]
  }

  /**
   * `start`: a new user gets `{name, cows: []}`; a known one has only the name refreshed.
   */
  function Upsert(s: Store, user: UserId, name: string): (r: Store)
    ensures r.users.Keys == s.users.Keys + {user}
    ensures r.users[user].name == name
    ensures r.users[user].cows == if user in s.users then s.users[user].cows else []
    ensures OthersUnchanged(s, r, user)
    ensures r.cows == s.cows && r.missing == s.missing
    ensures OwnersKnown(s) ==> OwnersKnown(r)
    ensures ListsDeduplicated(s) ==> ListsDeduplicated(r)
  {
    if user !in s.users then s.(users := s.users[user := User(name, [])])
    else s.(users := s.users[user := s.users[user].(name := name)])
  }

  /** `if x not in xs: xs.append(x)`. */
  function AppendIfAbsent(xs: seq<CowId>, x: CowId): (r: seq<CowId>)
    ensures x in r
    ensures Elements(r) == Elements(xs) + {x}
    ensures |xs| <= |r| <= |xs| + 1 && r[..|xs|] == xs
    ensures x in xs <==> r == xs
    ensures NoDuplicates(xs) ==> NoDuplicates(r)
  {
    if x in xs then xs else xs + [x]
  }

  /**
   * The enrolment branch of `handle_photo`: `cow_data[cowId]` is (over)written with the pending
   * name, the caller as owner and the photo; the id joins the caller's list unless already there.
   */
  function Enrol(s: Store, user: UserId, cowId: CowId, name: string, photo: string): (r: Store)
    requires user in s.users
    ensures r.cows.Keys == s.cows.Keys + {cowId}
    ensures r.cows[cowId] == Cow(name, user, photo)
    ensures forall c :: c in s.cows && c != cowId ==> r.cows[c] == s.cows[c]
    ensures r.users.Keys == s.users.Keys && r.users[user].name == s.users[user].name
    ensures r.users[user].cows == AppendIfAbsent(s.users[user].cows, cowId)
    ensures OthersUnchanged(s, r, user)
    ensures r.missing == s.missing
    ensures OwnersKnown(s) ==> OwnersKnown(r)
    ensures ListsDeduplicated(s) ==> ListsDeduplicated(r)
  {
    var u := s.users[user];
    Store(s.users[user := u.(cows := AppendIfAbsent(u.cows, cowId))],
          s.cows[cowId := Cow(name, user, photo)],
          s.missing)
  }

  /**
   * `list(set(xs))`: the ids of `xs`, each once. Python's set order is hash order; this model
   * keeps the order of first occurrence.
   */
  function Dedup(xs: seq<CowId>): (r: seq<CowId>)
    ensures NoDuplicates(r)
    ensures Elements(r) == Elements(xs)
    ensures |r| <= |xs|
    ensures NoDuplicates(xs) ==> r == xs
  {
    if xs == [] then []
    else
      var init := xs[..|xs| - 1];
      assert xs == init + [xs[|xs| - 1]];
      assert Elements(xs) == Elements(init) + {xs[|xs| - 1]};
      assert NoDuplicates(xs) ==> NoDuplicates(init) && xs[|xs| - 1] !in init;
      AppendIfAbsent(Dedup(init), xs[|xs| - 1])
  }

  /**
   * The state change of `list_cows`: a user with no entry or an empty list is left alone;
   * otherwise the stored list is replaced by its deduplicated form.
   */
  function Compact(s: Store, user: UserId): (r: Store)
    ensures user !in s.users || s.users[user].cows == [] ==> r == s
    ensures r.users.Keys == s.users.Keys
    ensures user in s.users ==>
      r.users[user].name == s.users[user].name &&
      NoDuplicates(r.users[user].cows) &&
      Elements(r.users[user].cows) == Elements(s.users[user].cows)
    ensures OthersUnchanged(s, r, user)
    ensures r.cows == s.cows && r.missing == s.missing
    ensures OwnersKnown(s) ==> OwnersKnown(r)
    ensures ListsDeduplicated(s) ==> r == s
  {
    if user !in s.users || s.users[user].cows == [] then s
    else
      var u := s.users[user];
      s.(users := s.users[user := u.(cows := Dedup(u.cows))])
  }

  /** The cow ids of a list of cards, in order. */
  function CardIds(cards: seq<Card>): seq<CowId> {
    seq(|cards|, k requires 0 <= k < |cards| => cards[k].cowId)
  }

  /**
   * The display loop of `list_cows`: one card per id, in order, skipping ids that `cow_data`
   * lacks.
   */
  function Cards(ids: seq<CowId>, cows: map<CowId, Cow>): (cards: seq<Card>)
    ensures |cards| <= |ids|
    ensures forall k :: 0 <= k < |cards| ==>
      cards[k].cowId in cows &&
      cards[k] == Card(cards[k].cowId, cows[cards[k].cowId].name, cows[cards[k].cowId].photo)
    ensures Elements(CardIds(cards)) == set c | c in ids && c in cows
    ensures NoDuplicates(ids) ==> NoDuplicates(CardIds(cards))
  {
    if ids == [] then []
    else
      var init, last := ids[..|ids| - 1], ids[|ids| - 1];
      var prev := Cards(init, cows);
      assert ids == init + [last];
      assert (set c | c in ids && c in cows) ==
        (set c | c in init && c in cows) + (if last in cows then {last} else {});
      assert NoDuplicates(ids) ==> NoDuplicates(init) && last !in init;
      if last in cows then
        var cards := prev + [Card(last, cows[last].name, cows[last].photo)];
        assert CardIds(cards) == CardIds(prev) + [last];
        assert NoDuplicates(ids) ==> last !in CardIds(prev) by {
          assert last in CardIds(prev) ==> last in Elements(CardIds(prev));
        }
        cards
      else
        prev
  }

  /** Lists with the same elements show the same cows. */
  lemma SameElementsSameShown(xs: seq<CowId>, ys: seq<CowId>, cows: map<CowId, Cow>)
    requires Elements(xs) == Elements(ys)
    ensures (set c | c in xs && c in cows) == (set c | c in ys && c in cows)
  {
    assert forall c :: c in xs <==> c in Elements(xs);
    assert forall c :: c in ys <==> c in Elements(ys);
  }

  /** The position of the first occurrence of `x`, where Python's `list.remove` looks. */
  function FirstIndex(xs: seq<CowId>, x: CowId): (i: nat)
    requires x in xs
    ensures i < |xs| && xs[i] == x && x !in xs[..i]
  {
    if xs[0] == x then 0
    else
      var j := FirstIndex(xs[1..], x);
      assert xs[..j + 1] == [xs[0]] + xs[1..][..j];
      j + 1
  }

  /** Dropping the element at `i` takes exactly one of it out of the multiset. */
  lemma DropAtMultiset(xs: seq<CowId>, i: nat)
    requires i < |xs|
    ensures multiset(xs[..i] + xs[i + 1..]) == multiset(xs) - multiset{xs[i]}
  {
    assert xs == xs[..i] + [xs[i]] + xs[i + 1..];
  }

  /** Dropping an element of a list without duplicates leaves one without duplicates, and without it. */
  lemma DropAtNoDuplicates(xs: seq<CowId>, i: nat)
    requires i < |xs| && NoDuplicates(xs)
    ensures xs[i] !in xs[..i] + xs[i + 1..]
    ensures NoDuplicates(xs[..i] + xs[i + 1..])
  {
    var r := xs[..i] + xs[i + 1..];
    forall k | 0 <= k < |r|
      ensures r[k] == if k < i then xs[k] else xs[k + 1]
    {
    }
  }

  /** Python's `xs.remove(x)` once `x in xs` has been checked: the first occurrence goes. */
  function RemoveFirst(xs: seq<CowId>, x: CowId): (r: seq<CowId>)
    requires x in xs
    ensures exists i :: 0 <= i < |xs| && xs[i] == x && x !in xs[..i] && r == xs[..i] + xs[i + 1..]
    ensures multiset(r) == multiset(xs) - multiset{x}
    ensures |r| == |xs| - 1
    ensures NoDuplicates(xs) ==> x !in r && NoDuplicates(r)
  {
    var i := FirstIndex(xs, x);
    DropAtMultiset(xs, i);
    if NoDuplicates(xs) then DropAtNoDuplicates(xs, i); xs[..i] + xs[i + 1..]
    else xs[..i] + xs[i + 1..]
  }

  /**
   * `remove_cow`: an id the caller does not list changes nothing; an owned one loses one
   * occurrence from the caller's list and its `cow_data` entry, and `missing_cows` is kept.
   */
  function Remove(s: Store, user: UserId, cowId: CowId): (r: Store)
    requires user in s.users
    requires Owns(s, user, cowId) ==> cowId in s.cows
    ensures !Owns(s, user, cowId) ==> r == s
    ensures r.users.Keys == s.users.Keys && r.users[user].name == s.users[user].name
    ensures Owns(s, user, cowId) ==>
      r.cows == s.cows - {cowId} &&
      multiset(r.users[user].cows) == multiset(s.users[user].cows) - multiset{cowId}
    ensures OthersUnchanged(s, r, user)
    ensures r.missing == s.missing
    ensures OwnersKnown(s) ==> OwnersKnown(r)
    ensures ListsDeduplicated(s) ==> ListsDeduplicated(r)
  {
    if !Owns(s, user, cowId) then s
    else
      var u := s.users[user];
      Store(s.users[user := u.(cows := RemoveFirst(u.cows, cowId))], s.cows - {cowId}, s.missing)
  }

  /**
   * The state change of `mark_missing`: a non-owner changes nothing; an owner appends the id
   * to `missing_cows` with no duplicate check.
   */
  function MarkMissing(s: Store, user: UserId, cowId: CowId): (r: Store)
    requires user in s.users
    ensures !Owns(s, user, cowId) ==> r == s
    ensures Owns(s, user, cowId) ==> r.missing == s.missing + [cowId]
    ensures r.users == s.users && r.cows == s.cows
  {
    if Owns(s, user, cowId) then s.(missing := s.missing + [cowId]) else s
  }

  /** The recipients of a list of alerts, in order. */
  function Recipients(alerts: seq<Alert>): seq<UserId> {
    seq(|alerts|, k requires 0 <= k < |alerts| => alerts[k].recipient)
  }

  /**
   * The alerts of `mark_missing`: one per key of `user_data`, reporter included, each with
   * the cow's name and photo and the reporter's name.
   */
  predicate IsBroadcast(alerts: seq<Alert>, s: Store, user: UserId, cowId: CowId)
    requires user in s.users && cowId in s.cows
  {
    && NoDuplicates(Recipients(alerts))
    && Elements(Recipients(alerts)) == s.users.Keys
    && forall k :: 0 <= k < |alerts| ==>
         alerts[k] == Alert(alerts[k].recipient, s.cows[cowId].name, s.cows[cowId].photo, s.users[user].name)
  }

  /**
   * The identify branch of `handle_photo`: a match, with the cow's name and its owner's name,
   * exactly when the identified id is a key of `cow_data`; the confidence is passed through and
   * never compared with a threshold.
   */
  function Identify(s: Store, cowId: CowId, confidence: real): (r: Option<Sighting>)
    requires cowId in s.cows ==> s.cows[cowId].owner in s.users
    ensures r.Some? <==> cowId in s.cows
    ensures r.Some? ==>
      r.value.cowName == s.cows[cowId].name &&
      r.value.ownerName == s.users[s.cows[cowId].owner].name &&
      r.value.confidence == confidence
  {
    if cowId in s.cows then
      var cow := s.cows[cowId];
      Some(Sighting(cow.name, s.users[cow.owner].name, confidence))
    else None
  }
}
