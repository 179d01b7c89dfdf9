/** Runs of the contract: invocations, and what happens around them. */
module Runs {
  import opened Wrappers
  import opened Types
  import opened Token
  import opened Storage
  import opened Core

  /** `Invoke` carries the addresses that authorised the invocation. The rest is the environment: time
      moves on, temporary entries lapse, and other addresses send each other tokens. */
  datatype Action =
    | Invoke(auth: Auth, call: Call)
    | CloseLedger(now: U64)
    | ExpireTemporary(offers: set<nat>, indexes: set<nat>)
    | DirectTransfer(from: Address, to: Address, amount: I128)

  /** An event with the timestamp of the ledger it was published in. */
  datatype Stamped = Stamped(at: U64, event: Event)

  /** The contract never invokes itself, so its own address authorises nothing; time does not go back. */
  predicate Legal(s: State, a: Action) {
    match a
    case Invoke(auth, _) => s.self !in auth
    case CloseLedger(now) => s.now <= now
    case ExpireTemporary(_, _) => true
    case DirectTransfer(from, _, _) => from != s.self
  }

  function Stamp(at: U64, events: seq<Event>): (r: seq<Stamped>)
    ensures |r| == |events|
    ensures forall i | 0 <= i < |events| :: r[i] == Stamped(at, events[i])
  {
    if events == [] then [] else [Stamped(at, events[0])] + Stamp(at, events[1..])
  }

  lemma {:induction false} StampConcat(at: U64, a: seq<Event>, b: seq<Event>)
    ensures Stamp(at, a + b) == Stamp(at, a) + Stamp(at, b)
  {
    if a == [] {
      assert a + b == b;
    } else {
      assert (a + b)[1..] == a[1..] + b;
      StampConcat(at, a[1..], b);
    }
  }

  /** A failed invocation leaves everything as it was and publishes nothing. */
  function Step(s: State, a: Action): (State, seq<Stamped>) {
    match a
    case Invoke(auth, call) =>
      (match Execute(s, auth, call)
       case Ok(d) => (d.state, Stamp(s.now, d.events))
       case Err(_) => (s, []))
    case CloseLedger(now) => (s.(now := now), [])
    case ExpireTemporary(offers, indexes) =>
      (s.(offers := s.offers - offers, offerIndex := s.offerIndex - indexes), [])
    case DirectTransfer(from, to, amount) =>
      (match Transfer(s.balances, from, to, amount)
       case Ok(b) => (s.(balances := b, donated := s.donated + if to == s.self then amount else 0), [])
       case Err(_) => (s, []))
  }

  /** A call that fails, and everything that happens around calls, publishes nothing and touches no record but those
      that may vanish. */
  lemma IdleStep(s: State, a: Action)
    requires a.Invoke? ==> Execute(s, a.auth, a.call).Err?
    ensures var t := Step(s, a).0;
            && Step(s, a).1 == []
            && t == s.(now := t.now, offers := t.offers, offerIndex := t.offerIndex, balances := t.balances,
                       donated := t.donated)
            && (forall id | id in t.offerIndex :: id in s.offerIndex && t.offerIndex[id] == s.offerIndex[id])
  {
    hide Execute, Transfer;
    match a {
      case Invoke(_, _) =>
      case CloseLedger(_) =>
      case ExpireTemporary(_, _) =>
      case DirectTransfer(_, _, _) =>
    }
  }

  /** One step of a run: what is legal in `s`, where it leads and what it publishes. */
  predicate Next(s: State, a: Action, t: State, published: seq<Stamped>) {
    Legal(s, a) && (t, published) == Step(s, a)
  }

  /** The contract right after deployment. The token is there already, with whatever balances it has. */
  ghost predicate Deployed(s: State) {
    && s.orderCount == s.milestoneCount == s.offerCount == s.disputeCount == 0
    && s.orders == map[] && s.lists == map[] && s.slots == map[] && s.disputes == map[]
    && s.offers == map[] && s.offerIndex == map[] && s.history == map[]
    && BalancesOk(s.balances) && s.donated == Balance(s.balances, s.self)
  }

  /** A stretch of a run: the states it passes through, the actions between them, what each publishes. */
  datatype Trace = Trace(states: seq<State>, actions: seq<Action>, logs: seq<seq<Stamped>>) {
    predicate IsPath() {
      && |states| == |actions| + 1 && |logs| == |actions|
      && forall i | 0 <= i < |actions| :: Next(states[i], actions[i], states[i + 1], logs[i])
    }

    ghost predicate IsRun() {
      IsPath() && Deployed(states[0])
    }

    function Last(): State
      requires |states| > 0
    {
      states[|states| - 1]
    }

    /** Everything published by the first `n` actions, in order. */
    function Published(n: nat): seq<Stamped>
      requires n <= |logs|
    {
      if n == 0 then [] else Published(n - 1) + logs[n - 1]
    }

    function Log(): seq<Stamped> {
      Published(|logs|)
    }
  }
}
