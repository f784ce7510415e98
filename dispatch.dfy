/**
 * The per-user conversation flags and how they decide what a text or a photo means, as pure
 * steps from the old registry and flags to the new ones and the reply.
 */
module Dispatch {
  import opened Common
  import opened Registry
  import Gate

  /**
   * The two keys of a user's `context.user_data`: `awaiting_cow_name` (present or not) and
   * `adding_cow` (the pending cow name, if any). They are independent; both may be set.
   */
  datatype Flags = Flags(awaitingCowName: bool, addingCow: Option<string>)

  /** A user's flags before the first command. */
  const Initial: Flags := Flags(false, None)

  /**
   * What the handler learns from one photo: the labels of the general classifier's top
   * predictions, the arg-max class and probability of the cow identifier, and Telegram's file id.
   */
  datatype Photo = Photo(topLabels: seq<string>, cowId: CowId, confidence: real, fileId: string)

  /** The message the bot answers with. */
  datatype Reply =
    | AskCowName
    | AskIdentifyPhoto
    | AskCowPhoto
    | NotUnderstood
    | NotACow
    | CowAdded(name: string)
    | CowIdentified(sighting: Sighting)
    | NotInDatabase
    | NoCowsRegistered
    | CowCards(cards: seq<Card>)
    | CowRemoved
    | NotYourCow
    | MissingAlerts(alerts: seq<Alert>)
    | NoReply

  /** `add_cow`, as command or button: the awaiting flag is set, the pending name kept. */
  function RequestName(f: Flags): (r: Flags)
    ensures r.awaitingCowName
    ensures r.addingCow == f.addingCow
  {
    f.(awaitingCowName := true)
  }

  datatype TextOutcome = TextOutcome(flags: Flags, reply: Reply)

  /**
   * `handle_text`: while awaiting a name, the text becomes the pending name and the awaiting
   * flag goes; otherwise nothing changes.
   */
  function ReceiveText(f: Flags, text: string): (o: TextOutcome)
    ensures f.awaitingCowName ==> o.flags == Flags(false, Some(text)) && o.reply == AskCowPhoto
    ensures !f.awaitingCowName ==> o.flags == f && o.reply == NotUnderstood
  {
    if f.awaitingCowName then TextOutcome(Flags(false, Some(text)), AskCowPhoto)
    else TextOutcome(f, NotUnderstood)
  }

  /**
   * When `handle_photo` does not raise KeyError: enrolment needs the caller's user entry, and
   * identification of an enrolled cow needs its owner's entry.
   */
  predicate PhotoAllowed(s: Store, f: Flags, user: UserId, photo: Photo) {
    Gate.IsCow(photo.topLabels) ==>
      (f.addingCow.Some? ==> user in s.users) &&
      (f.addingCow.None? && photo.cowId in s.cows ==> s.cows[photo.cowId].owner in s.users)
  }

  datatype PhotoOutcome = PhotoOutcome(store: Store, flags: Flags, reply: Reply)

  /**
   * `handle_photo`: a photo the gate rejects changes nothing; an accepted one enrols the cow
   * under the pending name if `adding_cow` is set and is identified otherwise. The awaiting
   * flag is never looked at or changed.
   */
  function ReceivePhoto(s: Store, f: Flags, user: UserId, photo: Photo): (o: PhotoOutcome)
    requires PhotoAllowed(s, f, user, photo)
    ensures o.flags.awaitingCowName == f.awaitingCowName
    ensures !Gate.IsCow(photo.topLabels) ==> o == PhotoOutcome(s, f, NotACow)
    ensures Gate.IsCow(photo.topLabels) ==> o.flags.addingCow == None
    ensures Gate.IsCow(photo.topLabels) && f.addingCow.Some? ==>
      o.store == Enrol(s, user, photo.cowId, f.addingCow.value, photo.fileId) &&
      o.reply == CowAdded(f.addingCow.value)
    ensures Gate.IsCow(photo.topLabels) && f.addingCow.None? ==>
      o.store == s &&
      (o.reply.CowIdentified? <==> photo.cowId in s.cows) &&
      (o.reply.CowIdentified? ==> Identify(s, photo.cowId, photo.confidence) == Some(o.reply.sighting)) &&
      (!o.reply.CowIdentified? ==> o.reply == NotInDatabase)
  {
    if !Gate.IsCow(photo.topLabels) then PhotoOutcome(s, f, NotACow)
    else if f.addingCow.Some? then
      var name := f.addingCow.value;
      PhotoOutcome(Enrol(s, user, photo.cowId, name, photo.fileId), f.(addingCow := None), CowAdded(name))
    else
      match Identify(s, photo.cowId, photo.confidence)
      case Some(sighting) => PhotoOutcome(s, f, CowIdentified(sighting))
      case None => PhotoOutcome(s, f, NotInDatabase)
  }

  /**
   * The reply of `list_cows`: nothing registered for a user with no entry or an empty list;
   * otherwise one card per distinct id that `cow_data` holds, in the order of the compacted list.
   */
  function ListReply(s: Store, user: UserId): (reply: Reply)
    ensures user !in s.users || s.users[user].cows == [] <==> reply == NoCowsRegistered
    ensures !(user !in s.users || s.users[user].cows == []) ==> reply.CowCards?
    ensures reply.CowCards? ==>
      (forall k :: 0 <= k < |reply.cards| ==>
        reply.cards[k].cowId in s.cows &&
        reply.cards[k] == Card(reply.cards[k].cowId, s.cows[reply.cards[k].cowId].name, s.cows[reply.cards[k].cowId].photo)) &&
      NoDuplicates(CardIds(reply.cards)) &&
      Elements(CardIds(reply.cards)) == (set c | c in s.users[user].cows && c in s.cows)
  {
    if user !in s.users || s.users[user].cows == [] then NoCowsRegistered
    else
      var ids := Compact(s, user).users[user].cows;
      assert Elements(ids) == Elements(s.users[user].cows);
      SameElementsSameShown(ids, s.users[user].cows, s.cows);
      CowCards(Cards(ids, s.cows))
  }
}
