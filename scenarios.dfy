/**
 * Properties that relate several handler steps: repeated registration, removal followed by
 * listing, repeated missing reports, the enrolment conversation, and what an id collision does.
 */
module Scenarios {
  import opened Common
  import opened Registry
  import opened Dispatch
  import Gate
  import Callback

  /** `/start` twice with the same name is the same as once. */
  lemma UpsertIdempotent(s: Store, user: UserId, name: string)
    ensures Upsert(Upsert(s, user, name), user, name) == Upsert(s, user, name)
  {
  }

  /** Enrolling the same cow twice with the same name and photo is the same as once. */
  lemma EnrolIdempotent(s: Store, user: UserId, cowId: CowId, name: string, photo: string)
    requires user in s.users
    ensures Enrol(Enrol(s, user, cowId, name, photo), user, cowId, name, photo) ==
            Enrol(s, user, cowId, name, photo)
  {
  }

  /** However often an id was enrolled, after listing the owner's list holds it exactly once. */
  lemma EnrolThenListOnce(s: Store, user: UserId, cowId: CowId, name: string, photo: string)
    requires user in s.users
    ensures var t := Compact(Enrol(s, user, cowId, name, photo), user);
      user in t.users && multiset(t.users[user].cows)[cowId] == 1
  {
    var e := Enrol(s, user, cowId, name, photo);
    var t := Compact(e, user);
    assert cowId in Elements(e.users[user].cows);
    assert cowId in t.users[user].cows by {
      assert cowId in Elements(t.users[user].cows);
    }
    NoDuplicatesOccursOnce(t.users[user].cows, cowId);
  }

  /** With duplicate-free lists, an enrolled id is held exactly once even before any listing. */
  lemma EnrolOnceWithoutListing(s: Store, user: UserId, cowId: CowId, name: string, photo: string)
    requires user in s.users && ListsDeduplicated(s)
    ensures var e := Enrol(s, user, cowId, name, photo);
      multiset(e.users[user].cows)[cowId] == 1
  {
    var e := Enrol(s, user, cowId, name, photo);
    NoDuplicatesOccursOnce(e.users[user].cows, cowId);
  }

  /** A photo of an enrolled cow is identified as that cow, with its owner's name. */
  lemma EnrolThenIdentify(s: Store, user: UserId, cowId: CowId, name: string, photo: string, confidence: real)
    requires user in s.users
    ensures Identify(Enrol(s, user, cowId, name, photo), cowId, confidence) ==
            Some(Sighting(name, s.users[user].name, confidence))
  {
  }

  /** The confidence is reported, never compared: two photos differing only in it are read alike. */
  lemma ConfidenceNeverGates(s: Store, f: Flags, user: UserId, photo: Photo, other: real)
    requires PhotoAllowed(s, f, user, photo)
    ensures var a, b := ReceivePhoto(s, f, user, photo), ReceivePhoto(s, f, user, photo.(confidence := other));
      a.store == b.store && a.flags == b.flags &&
      a.reply.CowIdentified? == b.reply.CowIdentified? &&
      (a.reply.CowIdentified? ==> a.reply.sighting.(confidence := other) == b.reply.sighting)
  {
    var q := photo.(confidence := other);
    assert PhotoAllowed(s, f, user, q);
  }

  /**
   * The enrolment conversation: `add_cow`, a name, a photo the gate rejects (the pending name
   * survives), then an accepted photo, which registers the cow under that name and clears the flags.
   */
  lemma EnrolConversation(s: Store, user: UserId, name: string, rejected: Photo, accepted: Photo)
    requires user in s.users
    requires !Gate.IsCow(rejected.topLabels) && Gate.IsCow(accepted.topLabels)
    ensures
      var asked := RequestName(Initial);
      var named := ReceiveText(asked, name).flags;
      var first := ReceivePhoto(s, named, user, rejected);
      var second := ReceivePhoto(first.store, first.flags, user, accepted);
      named == Flags(false, Some(name)) &&
      first == PhotoOutcome(s, named, NotACow) &&
      second.store.cows[accepted.cowId] == Cow(name, user, accepted.fileId) &&
      accepted.cowId in second.store.users[user].cows &&
      second.store.missing == s.missing &&
      second.flags == Initial && second.reply == CowAdded(name)
  {
  }

  /** A photo sent while a name is asked for but not yet given takes the identify path. */
  lemma PhotoBeforeNameIdentifies(s: Store, user: UserId, photo: Photo)
    requires Gate.IsCow(photo.topLabels) && OwnersKnown(s)
    ensures var o := ReceivePhoto(s, RequestName(Initial), user, photo);
      o.store == s && o.flags == RequestName(Initial) &&
      (o.reply.CowIdentified? || o.reply == NotInDatabase)
  {
  }

  /** With every owner registered, a photo never hits the missing-owner case. */
  lemma OwnersKnownAllowsPhoto(s: Store, f: Flags, user: UserId, photo: Photo)
    requires OwnersKnown(s) && user in s.users
    ensures PhotoAllowed(s, f, user, photo)
  {
  }

  /** With duplicate-free lists, a removed cow is neither listed nor identified afterwards. */
  lemma RemoveThenListExcludes(s: Store, user: UserId, cowId: CowId, confidence: real)
    requires user in s.users && ListsDeduplicated(s)
    requires Owns(s, user, cowId) && cowId in s.cows
    ensures var r := Remove(s, user, cowId);
      cowId !in Compact(r, user).users[user].cows &&
      (ListReply(r, user).CowCards? ==> cowId !in CardIds(ListReply(r, user).cards)) &&
      Identify(r, cowId, confidence) == None
  {
    var r := Remove(s, user, cowId);
    assert cowId !in r.users[user].cows;
    assert cowId !in Elements(Compact(r, user).users[user].cows);
    if ListReply(r, user).CowCards? {
      assert cowId !in Elements(CardIds(ListReply(r, user).cards));
    }
  }

  /** A list that holds an id twice or more (as loaded from disk) still holds it after one removal. */
  lemma RemoveKeepsSecondCopy(s: Store, user: UserId, cowId: CowId)
    requires user in s.users && cowId in s.cows && multiset(s.users[user].cows)[cowId] >= 2
    ensures Owns(Remove(s, user, cowId), user, cowId) && cowId !in Remove(s, user, cowId).cows
  {
    assert multiset(Remove(s, user, cowId).users[user].cows)[cowId] >= 1;
  }

  /** Marking a cow missing twice leaves two more entries for it: re-marking does not deduplicate. */
  lemma MarkMissingTwice(s: Store, user: UserId, cowId: CowId)
    requires user in s.users && Owns(s, user, cowId)
    ensures var t := MarkMissing(MarkMissing(s, user, cowId), user, cowId);
      t.missing == s.missing + [cowId, cowId] &&
      multiset(t.missing)[cowId] == multiset(s.missing)[cowId] + 2
  {
    var t := MarkMissing(MarkMissing(s, user, cowId), user, cowId);
    assert t.missing == s.missing + [cowId] + [cowId];
    assert s.missing + [cowId] + [cowId] == s.missing + [cowId, cowId];
  }

  /** A removed cow that was reported missing stays in `missing_cows`. */
  lemma RemoveKeepsMissingEntry(s: Store, user: UserId, cowId: CowId)
    requires user in s.users && Owns(s, user, cowId) && cowId in s.cows
    ensures var t := Remove(MarkMissing(s, user, cowId), user, cowId);
      cowId !in t.cows && cowId in t.missing
  {
  }

  /**
   * Two users whose cows the identifier maps to the same class: the second enrolment takes the
   * record over, the first owner's removal deletes it, and the second owner keeps an id with no
   * record, which listing skips and which removing or marking would fail on.
   */
  lemma CollisionLeavesDanglingId(s: Store, a: UserId, b: UserId, cowId: CowId,
                                  nameA: string, photoA: string, nameB: string, photoB: string)
    requires a in s.users && b in s.users && a != b
    ensures
      var s1 := Enrol(Enrol(s, a, cowId, nameA, photoA), b, cowId, nameB, photoB);
      var s2 := Remove(s1, a, cowId);
      s1.cows[cowId].owner == b && Owns(s1, a, cowId) &&
      Owns(s2, b, cowId) && cowId !in s2.cows &&
      (ListReply(s2, b).CowCards? ==> cowId !in CardIds(ListReply(s2, b).cards))
  {
    var s1 := Enrol(Enrol(s, a, cowId, nameA, photoA), b, cowId, nameB, photoB);
    var s2 := Remove(s1, a, cowId);
    assert s2.users[b] == s1.users[b];
    if ListReply(s2, b).CowCards? {
      assert cowId !in Elements(CardIds(ListReply(s2, b).cards));
    }
  }

  /** Listing twice stores the same as listing once. */
  lemma ListIdempotent(s: Store, user: UserId)
    ensures Compact(Compact(s, user), user) == Compact(s, user)
  {
  }

  /** Every listed cow whose id holds no `_` comes back from its buttons as that cow. */
  lemma ListedButtonsRoundTrip(s: Store, user: UserId, k: nat)
    requires ListReply(s, user).CowCards? && k < |ListReply(s, user).cards|
    requires Callback.Separator !in ListReply(s, user).cards[k].cowId
    ensures var c := ListReply(s, user).cards[k];
      c.cowId in s.users[user].cows && c.cowId in s.cows &&
      Callback.ParseButton(Callback.RemovePayload(c.cowId)) == Callback.PressRemove(c.cowId) &&
      Callback.ParseButton(Callback.MissingPayload(c.cowId)) == Callback.PressMarkMissing(c.cowId)
  {
    var cards := ListReply(s, user).cards;
    assert cards[k].cowId == CardIds(cards)[k];
    assert cards[k].cowId in Elements(CardIds(cards));
    Callback.PayloadRoundTrip(cards[k].cowId);
  }
}
