/**
 * The bot's handlers over the mutable globals and a user's context, updated in place as the
 * Python module does. Each handler is proved against the pure step of `Registry` or `Dispatch`.
 */
module Handlers {
  import opened Common
  import opened Registry
  import opened Dispatch
  import Callback
  import Gate

  /** The module-level globals `user_data`, `cow_data` and `missing_cows`. */
  class Globals {
    var users: map<UserId, User>
    var cows: map<CowId, Cow>
    var missing: seq<CowId>

    /** The current value of the three globals. */
    function Snapshot(): Store
      reads this
    {
      Store(users, cows, missing)
    }

    constructor ()
      ensures Snapshot() == Registry.Empty
    {
      users, cows, missing := map[], map[], [];
    }
  }

  /** One user's `context.user_data`, holding the two conversation flags. */
  class UserContext {
    var awaitingCowName: bool
    var addingCow: Option<string>

    /** The current value of the flags. */
    function State(): Flags
      reads this
    {
      Flags(awaitingCowName, addingCow)
    }

    constructor ()
      ensures State() == Initial
    {
      awaitingCowName, addingCow := false, None;
    }
  }

  /** `start`: register the user or refresh the name. */
  method Start(g: Globals, user: UserId, name: string)
    modifies g
    ensures g.Snapshot() == Upsert(old(g.Snapshot()), user, name)
  {
    if user !in g.users {
      g.users := g.users[user := User(name, [])];
    } else {
      g.users := g.users[user := g.users[user].(name := name)];
    }
  }

  /** `add_cow_command`: ask for a name. */
  method AddCowCommand(ctx: UserContext) returns (reply: Reply)
    modifies ctx
    ensures ctx.State() == RequestName(old(ctx.State()))
    ensures reply == AskCowName
  {
    ctx.awaitingCowName := true;
    reply := AskCowName;
  }

  /** `handle_text`: a text while awaiting a name becomes the pending name. */
  method HandleText(ctx: UserContext, text: string) returns (reply: Reply)
    modifies ctx
    ensures TextOutcome(ctx.State(), reply) == ReceiveText(old(ctx.State()), text)
  {
    if ctx.awaitingCowName {
      ctx.addingCow := Some(text);
      ctx.awaitingCowName := false;
      reply := AskCowPhoto;
    } else {
      reply := NotUnderstood;
    }
  }

  /** `handle_photo`: the gate, then enrolment or identification. */
  method HandlePhoto(g: Globals, ctx: UserContext, user: UserId, photo: Photo) returns (reply: Reply)
    requires PhotoAllowed(g.Snapshot(), ctx.State(), user, photo)
    modifies g, ctx
    ensures PhotoOutcome(g.Snapshot(), ctx.State(), reply) ==
      ReceivePhoto(old(g.Snapshot()), old(ctx.State()), user, photo)
  {
    if !Gate.IsCow(photo.topLabels) {
      reply := NotACow;
      return;
    }
    if ctx.addingCow.Some? {
      var name := ctx.addingCow.value;
      g.cows := g.cows[photo.cowId := Cow(name, user, photo.fileId)];
      if photo.cowId !in g.users[user].cows {
        g.users := g.users[user := g.users[user].(cows := g.users[user].cows + [photo.cowId])];
      }
      ctx.addingCow := None;
      reply := CowAdded(name);
    } else if photo.cowId in g.cows {
      var cow := g.cows[photo.cowId];
      reply := CowIdentified(Sighting(cow.name, g.users[cow.owner].name, photo.confidence));
    } else {
      reply := NotInDatabase;
    }
  }

  /** The display loop of `list_cows`: a card for each id that `cow_data` holds. */
  method ShowCards(g: Globals, ids: seq<CowId>) returns (cards: seq<Card>)
    ensures cards == Cards(ids, g.cows)
  {
    cards := [];
    for i := 0 to |ids|
      invariant cards == Cards(ids[..i], g.cows)
    {
      assert ids[..i + 1][..i] == ids[..i];
      var cowId := ids[i];
      if cowId in g.cows {
        cards := cards + [Card(cowId, g.cows[cowId].name, g.cows[cowId].photo)];
      }
    }
    assert ids[..|ids|] == ids;
  }

  /** `list_cows`: show the caller's cows and store the list without duplicates. */
  method ListCows(g: Globals, user: UserId) returns (reply: Reply)
    modifies g
    ensures g.Snapshot() == Compact(old(g.Snapshot()), user)
    ensures reply == ListReply(old(g.Snapshot()), user)
  {
    if user !in g.users || g.users[user].cows == [] {
      reply := NoCowsRegistered;
      return;
    }
    var unique := Dedup(g.users[user].cows);
    var cards := ShowCards(g, unique);
    g.users := g.users[user := g.users[user].(cows := unique)];
    reply := CowCards(cards);
  }

  /** `remove_cow`: an owner's id leaves the list and `cow_data`. */
  method RemoveCow(g: Globals, user: UserId, cowId: CowId) returns (reply: Reply)
    requires user in g.users
    requires Owns(g.Snapshot(), user, cowId) ==> cowId in g.cows
    modifies g
    ensures g.Snapshot() == Registry.Remove(old(g.Snapshot()), user, cowId)
    ensures reply == if Owns(old(g.Snapshot()), user, cowId) then CowRemoved else NotYourCow
  {
    if cowId in g.users[user].cows {
      g.users := g.users[user := g.users[user].(cows := RemoveFirst(g.users[user].cows, cowId))];
      g.cows := g.cows - {cowId};
      reply := CowRemoved;
    } else {
      reply := NotYourCow;
    }
  }

  /** The alert loop of `mark_missing`: one alert for every key of `user_data`. */
  method Broadcast(g: Globals, user: UserId, cowId: CowId) returns (alerts: seq<Alert>)
    requires user in g.users && cowId in g.cows
    ensures IsBroadcast(alerts, g.Snapshot(), user, cowId)
  {
    var cow := g.cows[cowId];
    var ownerName := g.users[user].name;
    var remaining := g.users.Keys;
    alerts := [];
    while remaining != {}
      invariant remaining <= g.users.Keys
      invariant Elements(Recipients(alerts)) == g.users.Keys - remaining
      invariant NoDuplicates(Recipients(alerts))
      invariant forall k :: 0 <= k < |alerts| ==> alerts[k] == Alert(alerts[k].recipient, cow.name, cow.photo, ownerName)
      decreases remaining
    {
      var u :| u in remaining;
      assert Recipients(alerts + [Alert(u, cow.name, cow.photo, ownerName)]) == Recipients(alerts) + [u];
      assert Elements(Recipients(alerts) + [u]) == Elements(Recipients(alerts)) + {u};
      alerts := alerts + [Alert(u, cow.name, cow.photo, ownerName)];
      remaining := remaining - {u};
    }
  }

  /** `mark_missing`: an owner's id is appended to `missing_cows` and every user is alerted. */
  method MarkMissing(g: Globals, user: UserId, cowId: CowId) returns (reply: Reply)
    requires user in g.users
    requires Owns(g.Snapshot(), user, cowId) ==> cowId in g.cows
    modifies g
    ensures g.Snapshot() == Registry.MarkMissing(old(g.Snapshot()), user, cowId)
    ensures !Owns(old(g.Snapshot()), user, cowId) ==> reply == NotYourCow
    ensures Owns(old(g.Snapshot()), user, cowId) ==>
      reply.MissingAlerts? && IsBroadcast(reply.alerts, g.Snapshot(), user, cowId)
  {
    if cowId in g.users[user].cows {
      g.missing := g.missing + [cowId];
      var alerts := Broadcast(g, user, cowId);
      reply := MissingAlerts(alerts);
    } else {
      reply := NotYourCow;
    }
  }

  /** When `button` does not raise KeyError: a remove or mark press needs what those handlers need. */
  predicate ButtonAllowed(s: Store, user: UserId, data: string) {
    var a := Callback.ParseButton(data);
    (a.PressRemove? || a.PressMarkMissing?) ==>
      user in s.users && (a.cowId in s.users[user].cows ==> a.cowId in s.cows)
  }

  /** `button`: dispatch an inline-keyboard press on its payload. */
  method Button(g: Globals, ctx: UserContext, user: UserId, data: string) returns (reply: Reply)
    requires ButtonAllowed(g.Snapshot(), user, data)
    modifies g, ctx
    ensures Callback.ParseButton(data).PressAddCow? ==>
      ctx.State() == RequestName(old(ctx.State())) && g.Snapshot() == old(g.Snapshot()) && reply == AskCowName
    ensures Callback.ParseButton(data).PressList? ==>
      g.Snapshot() == Compact(old(g.Snapshot()), user) && ctx.State() == old(ctx.State()) &&
      reply == ListReply(old(g.Snapshot()), user)
    ensures Callback.ParseButton(data).PressIdentify? ==>
      g.Snapshot() == old(g.Snapshot()) && ctx.State() == old(ctx.State()) && reply == AskIdentifyPhoto
    ensures Callback.ParseButton(data).PressRemove? ==>
      var cowId := Callback.ParseButton(data).cowId;
      g.Snapshot() == Registry.Remove(old(g.Snapshot()), user, cowId) && ctx.State() == old(ctx.State()) &&
      reply == if Owns(old(g.Snapshot()), user, cowId) then CowRemoved else NotYourCow
    ensures Callback.ParseButton(data).PressMarkMissing? ==>
      var cowId := Callback.ParseButton(data).cowId;
      g.Snapshot() == Registry.MarkMissing(old(g.Snapshot()), user, cowId) && ctx.State() == old(ctx.State()) &&
      (reply == NotYourCow <==> !Owns(old(g.Snapshot()), user, cowId)) &&
      (Owns(old(g.Snapshot()), user, cowId) ==>
        reply.MissingAlerts? && IsBroadcast(reply.alerts, g.Snapshot(), user, cowId))
    ensures Callback.ParseButton(data).PressOther? ==>
      g.Snapshot() == old(g.Snapshot()) && ctx.State() == old(ctx.State()) && reply == NoReply
  {
    match Callback.ParseButton(data)
    case PressAddCow =>
      ctx.awaitingCowName := true;
      reply := AskCowName;
    case PressList =>
      reply := ListCows(g, user);
    case PressIdentify =>
      reply := AskIdentifyPhoto;
    case PressRemove(cowId) =>
      reply := RemoveCow(g, user, cowId);
    case PressMarkMissing(cowId) =>
      reply := MarkMissing(g, user, cowId);
    case PressOther =>
      reply := NoReply;
  }
}
