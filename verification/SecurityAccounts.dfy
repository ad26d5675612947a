/** All accounts at once, with one store of challenges for all of them: a challenge is
    presented by its id alone, and the store says whose it is. The clock is shared too. */
module SecurityAccounts {
  import opened Common
  import opened SecurityRows
  import opened SecurityProtocol

  type UserId = nat

  /** `issuedTo` is the user field of every challenge in the store; the version is with the
      account that it was issued to. */
  datatype World = World(accounts: map<UserId, System>, issuedTo: map<ChallengeId, UserId>)

  datatype AnyEvent =
    | Pass(delay: nat)
    | Of(user: UserId, event: Event)
    | Present(pid: Pid, challenge: ChallengeId)

  /** An id that is in the store is not drawn again, for whichever user. */
  function StepOf(w: World, e: AnyEvent): World {
    match e
    case Pass(delay) => w.(accounts := map u | u in w.accounts :: Step(w.accounts[u], Tick(delay)))
    case Present(pid, c) =>
      if c !in w.issuedTo || w.issuedTo[c] !in w.accounts then w
      else w.(accounts := w.accounts[w.issuedTo[c] := Step(w.accounts[w.issuedTo[c]], Attempt(pid, c))])
    case Of(user, event) =>
      if user !in w.accounts || event.Tick? || event.Attempt? then w
      else if event.Issue? && event.challenge in w.issuedTo then w
      else
        var s := Step(w.accounts[user], event);
        World(w.accounts[user := s],
              if event.Issue? && event.challenge in s.challenges then w.issuedTo[event.challenge := user] else w.issuedTo)
  }

  function RunOf(w: World, events: seq<AnyEvent>): World {
    if events == [] then w else StepOf(RunOf(w, events[..|events| - 1]), events[|events| - 1])
  }

  function Start(users: map<UserId, User>, start: Time): World {
    World(map u | u in users :: Initial(users[u], start), map[])
  }

  /** The store and the accounts agree on whose challenge each one is. */
  ghost predicate Directory(w: World) {
    && (forall c :: c in w.issuedTo ==> w.issuedTo[c] in w.accounts && c in w.accounts[w.issuedTo[c]].challenges)
    && (forall u, c :: u in w.accounts && c in w.accounts[u].challenges ==> c in w.issuedTo && w.issuedTo[c] == u)
  }

  /** Only Issue adds a challenge, and none is ever taken away or changed. */
  lemma ChallengesOfStep(s: System, e: Event)
    ensures forall c :: c in s.challenges ==> c in Step(s, e).challenges && Step(s, e).challenges[c] == s.challenges[c]
    ensures forall c :: c in Step(s, e).challenges && c !in s.challenges ==> e.Issue? && e.challenge == c
  {
  }

  lemma StepKeepsDirectory(w: World, e: AnyEvent)
    requires Directory(w)
    ensures Directory(StepOf(w, e)) && StepOf(w, e).accounts.Keys == w.accounts.Keys
  {
    match e
    case Pass(delay) =>
      forall u | u in w.accounts ensures Step(w.accounts[u], Tick(delay)).challenges == w.accounts[u].challenges {}
    case Present(pid, c) =>
      if c in w.issuedTo {
        ChallengesOfStep(w.accounts[w.issuedTo[c]], Attempt(pid, c));
      }
    case Of(_, _) => OwnStepKeepsDirectory(w, e);
  }

  lemma OwnStepKeepsDirectory(w: World, e: AnyEvent)
    requires Directory(w) && e.Of?
    ensures Directory(StepOf(w, e)) && StepOf(w, e).accounts.Keys == w.accounts.Keys
  {
    if e.user in w.accounts {
      ChallengesOfStep(w.accounts[e.user], e.event);
    }
  }

  /** The account got here in some run of its own. */
  ghost predicate RanAs(from: System, to: System) {
    exists events :: Run(from, events) == to
  }

  lemma RanOn(from: System, to: System, e: Event)
    requires RanAs(from, to)
    ensures RanAs(from, Step(to, e))
  {
    var events :| Run(from, events) == to;
    assert (events + [e])[..|events|] == events;
    assert Run(from, events + [e]) == Step(to, e);
  }

  lemma {:induction false} RunsAreTheAccounts(w: World, events: seq<AnyEvent>)
    requires Directory(w)
    ensures Directory(RunOf(w, events)) && RunOf(w, events).accounts.Keys == w.accounts.Keys
    ensures forall u :: u in w.accounts ==> RanAs(w.accounts[u], RunOf(w, events).accounts[u])
  {
    if events == [] {
      forall u | u in w.accounts ensures RanAs(w.accounts[u], w.accounts[u]) {
        assert Run(w.accounts[u], []) == w.accounts[u];
      }
    } else {
      var before, e := RunOf(w, events[..|events| - 1]), events[|events| - 1];
      RunsAreTheAccounts(w, events[..|events| - 1]);
      StepKeepsDirectory(before, e);
      forall u | u in w.accounts ensures RanAs(w.accounts[u], RunOf(w, events).accounts[u]) {
        match e {
          case Pass(delay) => RanOn(w.accounts[u], before.accounts[u], Tick(delay));
          case Present(pid, c) => RanOn(w.accounts[u], before.accounts[u], Attempt(pid, c));
          case Of(_, event) => RanOn(w.accounts[u], before.accounts[u], event);
        }
      }
    }
  }

  lemma RanRight(user: User, start: Time, s: System)
    requires RanAs(Initial(user, start), s)
    ensures Inv(s)
  {
    var own :| Run(Initial(user, start), own) == s;
    RunKeepsInv(user, start, own);
  }

  /** The account's modes, its factors and its challenges are right, and a challenge was
      only ever accepted for the user it was issued to. */
  ghost predicate AccountRight(w: World, user: UserId) {
    && user in w.accounts && ModeInv(w.accounts[user]) && FactorsOnce(w.accounts[user].log)
    && forall a :: a in w.accounts[user].log ==>
         && BoundToPassword(w.accounts[user].challenges, a)
         && (a.challenge.Some? ==> a.challenge.value in w.issuedTo && w.issuedTo[a.challenge.value] == user)
  }

  lemma InvMakesRight(w: World, user: UserId)
    requires Directory(w) && user in w.accounts && Inv(w.accounts[user])
    ensures AccountRight(w, user)
  {
  }

  lemma EveryAccountIsRight(users: map<UserId, User>, start: Time, events: seq<AnyEvent>, user: UserId)
    requires user in users
    ensures AccountRight(RunOf(Start(users, start), events), user)
  {
    var first := Start(users, start);
    RunsAreTheAccounts(first, events);
    assert first.accounts[user] == Initial(users[user], start);
    RanRight(users[user], start, RunOf(first, events).accounts[user]);
    InvMakesRight(RunOf(first, events), user);
  }

  /** So nothing that is done for one user accepts a challenge of another: no id is in two
      accounts' logs. */
  lemma ChallengesAreNotShared(users: map<UserId, User>, start: Time, events: seq<AnyEvent>, u: UserId, v: UserId, i: nat, j: nat)
    requires u in users && v in users && u != v
    requires var w := RunOf(Start(users, start), events);
             && u in w.accounts && v in w.accounts && i < |w.accounts[u].log| && j < |w.accounts[v].log|
             && w.accounts[u].log[i].challenge.Some?
    ensures var w := RunOf(Start(users, start), events);
            w.accounts[u].log[i].challenge != w.accounts[v].log[j].challenge
  {
    EveryAccountIsRight(users, start, events, u);
    EveryAccountIsRight(users, start, events, v);
    var w := RunOf(Start(users, start), events);
    assert w.accounts[u].log[i] in w.accounts[u].log && w.accounts[v].log[j] in w.accounts[v].log;
  }
}
