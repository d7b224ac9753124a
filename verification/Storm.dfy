/**
 How much signalling a state can still cause.  Messages are only delivered, in any order and each at most once;
 nobody sends on their own and libjuice reports nothing.
 */
module Storm {
  import Orderly = Agreement
  import opened JuiceSession
  import opened Signalling

  // ----- The potential -----

  /** What one message in flight to `side` can still cause, itself included. */
  function Weight(side: Side, m: Message): nat {
    match m
    case ConnectionRequest(_) => if side == Fol then 4 else 2
    case LocalDescription(_) => 1
    case Candidate(_) => 0
    case GatheringDone => 0
    case Pong => 0
  }

  function Load(side: Side, ms: seq<Message>): nat {
    if ms == [] then 0 else Load(side, ms[..|ms| - 1]) + Weight(side, ms[|ms| - 1])
  }

  /** An agent that is not engaged may still announce a description. */
  function Idle(a: Agent): nat {
    if a.IsEngaged() then 0 else 1
  }

  function Potential(w: Net): nat {
    Load(Ctl, w.toCtl) + Load(Fol, w.toFol) + Idle(w.ctl) + Idle(w.fol)
  }

  lemma LoadAppend(side: Side, ms: seq<Message>, m: Message)
    ensures Load(side, ms + [m]) == Load(side, ms) + Weight(side, m)
  {
    assert (ms + [m])[..|ms|] == ms;
  }

  lemma {:induction false} LoadWithout(side: Side, ms: seq<Message>, i: nat)
    requires i < |ms|
    ensures Load(side, ms) == Load(side, Without(ms, i)) + Weight(side, ms[i])
  {
    var last := |ms| - 1;
    if i == last {
      assert Without(ms, i) == ms[..last];
    } else {
      LoadWithout(side, ms[..last], i);
      LoadAppend(side, Without(ms[..last], i), ms[last]);
      assert Without(ms, i) == Without(ms[..last], i) + [ms[last]];
    }
  }

  // ----- One delivery -----

  /** A delivery of a request or a description, as opposed to candidates. */
  predicate Signals(w: Net, d: (Side, nat)) {
    d.1 < |w.Inbox(d.0)| && (w.Inbox(d.0)[d.1].ConnectionRequest? || w.Inbox(d.0)[d.1].LocalDescription?)
  }

  /** The delivery of a description other than the one the receiver holds. */
  predicate Mismatch(w: Net, d: (Side, nat)) {
    && d.1 < |w.Inbox(d.0)| && w.Inbox(d.0)[d.1].LocalDescription?
    && w.At(d.0).remoteSdp != EMPTY
    && w.At(d.0).remoteSdp != w.Inbox(d.0)[d.1].sdp
  }

  function Cost(b: bool): nat {
    if b then 1 else 0
  }

  /** The messages a handler sends and the state it leaves weigh less than the message it consumed. */
  lemma HandlerShrinks(a: Agent, side: Side, m: Message)
    requires a.controlling == (side == Ctl)
    ensures
      var s := Handle(a, m);
      var other := if side == Ctl then Fol else Ctl;
      var mismatch := m.LocalDescription? && a.remoteSdp != EMPTY && a.remoteSdp != m.sdp;
      && s.agent.controlling == a.controlling
      && |s.sent| <= 1
      && SentWeight(other, s.sent) + Idle(s.agent)
         + Cost(m.ConnectionRequest? || m.LocalDescription?)
         <= Weight(side, m) + Idle(a) + 5 * Cost(mismatch)
  {
  }

  function SentWeight(to: Side, sent: seq<Message>): nat {
    if sent == [] then 0 else Weight(to, sent[0])
  }

  /** The step of the agent on `to` takes one message out of its channel and puts at most one into the other. */
  lemma PotentialAfter(w: Net, to: Side, i: nat, s: Step)
    requires i < |w.Inbox(to)| && |s.sent| <= 1
    ensures
      var other := if to == Ctl then Fol else Ctl;
      Potential(w.WithInbox(to, Without(w.Inbox(to), i)).Take(to, s)) + Weight(to, w.Inbox(to)[i]) + Idle(w.At(to))
      == Potential(w) + SentWeight(other, s.sent) + Idle(s.agent)
  {
    LoadWithout(to, w.Inbox(to), i);
    if s.sent == [] {
      assert w.toCtl + s.sent == w.toCtl && w.toFol + s.sent == w.toFol;
    } else {
      assert s.sent == [s.sent[0]];
      LoadAppend(Fol, w.toFol, s.sent[0]);
      LoadAppend(Ctl, w.toCtl, s.sent[0]);
    }
  }

  lemma DeliveryShrinks(w: Net, d: (Side, nat))
    requires w.ctl.controlling && !w.fol.controlling
    ensures
      var w' := Next(w, Deliver(d.0, d.1));
      && w'.ctl.controlling && !w'.fol.controlling
      && Potential(w') + Cost(Signals(w, d)) <= Potential(w) + 5 * Cost(Mismatch(w, d))
  {
    var (to, i) := d;
    if i < |w.Inbox(to)| {
      HandlerShrinks(w.At(to), to, w.Inbox(to)[i]);
      PotentialAfter(w, to, i, Handle(w.At(to), w.Inbox(to)[i]));
    }
  }

  // ----- Whole runs -----

  function Deliveries(w: Net, run: seq<(Side, nat)>): Net {
    if run == [] then w
    else var d := run[|run| - 1]; Next(Deliveries(w, run[..|run| - 1]), Deliver(d.0, d.1))
  }

  /** How many requests and descriptions are delivered in a run. */
  function SignalCount(w: Net, run: seq<(Side, nat)>): nat {
    if run == [] then 0
    else SignalCount(w, run[..|run| - 1]) + Cost(Signals(Deliveries(w, run[..|run| - 1]), run[|run| - 1]))
  }

  function MismatchCount(w: Net, run: seq<(Side, nat)>): nat {
    if run == [] then 0
    else MismatchCount(w, run[..|run| - 1]) + Cost(Mismatch(Deliveries(w, run[..|run| - 1]), run[|run| - 1]))
  }

  /**
   No signalling storm: with one controlling side, the deliveries are at most linear in the starting state, plus five
   for each description that replaces another.
   */
  lemma {:induction false} NoStorm(w: Net, run: seq<(Side, nat)>)
    requires w.ctl.controlling && !w.fol.controlling
    ensures Deliveries(w, run).ctl.controlling && !Deliveries(w, run).fol.controlling
    ensures SignalCount(w, run) + Potential(Deliveries(w, run)) <= Potential(w) + 5 * MismatchCount(w, run)
  {
    if run == [] {
    } else {
      NoStorm(w, run[..|run| - 1]);
      DeliveryShrinks(Deliveries(w, run[..|run| - 1]), run[|run| - 1]);
    }
  }

  // ----- From two fresh agents -----

  predicate OldestFirst(run: seq<(Side, nat)>) {
    forall d :: d in run ==> d.1 == 0
  }

  function Events(run: seq<(Side, nat)>): seq<Event> {
    if run == [] then []
    else Events(run[..|run| - 1]) + [Deliver(run[|run| - 1].0, run[|run| - 1].1)]
  }

  lemma {:induction false} DeliveriesAreOrderly(w: Net, run: seq<(Side, nat)>)
    requires OldestFirst(run)
    ensures Deliveries(w, run) == Orderly.OrderlyExec(w, Events(run))
  {
    if run == [] {
    } else {
      var front, d := run[..|run| - 1], run[|run| - 1];
      assert d in run && forall x :: x in front ==> x in run;
      DeliveriesAreOrderly(w, front);
      assert Events(run)[..|Events(run)| - 1] == Events(front);
    }
  }

  lemma MismatchResets(w: Net, d: (Side, nat))
    requires Mismatch(w, d)
    ensures Next(w, Deliver(d.0, d.1)).At(d.0).instance == w.At(d.0).instance + 1
  {
  }

  lemma {:induction false} FreshAgentsNeverMismatch(kind: AgentType, ctlTick: Tick, folTick: Tick, run: seq<(Side, nat)>)
    requires OldestFirst(run)
    ensures MismatchCount(Start(kind, ctlTick, folTick), run) == 0
  {
    if run == [] {
    } else {
      var start, front, d := Start(kind, ctlTick, folTick), run[..|run| - 1], run[|run| - 1];
      assert forall x :: x in front ==> x in run;
      FreshAgentsNeverMismatch(kind, ctlTick, folTick, front);
      DeliveriesAreOrderly(start, front);
      DeliveriesAreOrderly(start, run);
      Orderly.FreshAgentsAgree(kind, ctlTick, folTick, Events(front));
      Orderly.FreshAgentsAgree(kind, ctlTick, folTick, Events(run));
      if Mismatch(Deliveries(start, front), d) {
        MismatchResets(Deliveries(start, front), d);
        assert false;
      }
    }
  }

  lemma StartPotential(kind: AgentType, ctlTick: Tick, folTick: Tick)
    ensures Potential(Start(kind, ctlTick, folTick)) == 8
  {
    var w := Start(kind, ctlTick, folTick);
    LoadAppend(Ctl, [], w.toCtl[0]);
    LoadAppend(Fol, [], w.toFol[0]);
    assert [] + [w.toCtl[0]] == w.toCtl && [] + [w.toFol[0]] == w.toFol;
  }

  /** Two fresh agents that get their messages in order exchange no more than eight requests and descriptions. */
  lemma FreshAgentsSettle(kind: AgentType, ctlTick: Tick, folTick: Tick, run: seq<(Side, nat)>)
    requires OldestFirst(run)
    ensures SignalCount(Start(kind, ctlTick, folTick), run) <= 8
  {
    NoStorm(Start(kind, ctlTick, folTick), run);
    FreshAgentsNeverMismatch(kind, ctlTick, folTick, run);
    StartPotential(kind, ctlTick, folTick);
  }

  // ----- Without the role split -----

  /** Two followers without a session, and one request that neither of them has overtaken. */
  predicate Volley(w: Net, ctlOurs: nat, folOurs: nat) {
    && !w.ctl.controlling && !w.fol.controlling && w.ctl.state == Disconnected && w.fol.state == Disconnected
    && w.ctl.ours == ctlOurs && w.fol.ours == folOurs && w.ctl.theirs <= folOurs && w.fol.theirs <= ctlOurs
    && w.toFol == [] && w.toCtl == [ConnectionRequest(folOurs)]
  }

  /** The request goes over as another one and comes back. */
  lemma Rally(w: Net)
    requires Volley(w, w.ctl.ours, w.fol.ours)
    ensures
      var w1 := Next(w, Deliver(Ctl, 0));
      Signals(w, (Ctl, 0)) && Signals(w1, (Fol, 0)) && Volley(Next(w1, Deliver(Fol, 0)), w.ctl.ours, w.fol.ours)
  {
    var w1 := Next(w, Deliver(Ctl, 0));
    assert w1.toCtl == [] && w1.toFol == [ConnectionRequest(w.ctl.ours)];
  }

  /** Without the role split there is a storm: two followers answer one request with another for ever. */
  lemma TwoFollowersNeverStop(w: Net, n: nat)
    requires Volley(w, w.ctl.ours, w.fol.ours)
    ensures exists run :: |run| == 2 * n && SignalCount(w, run) == 2 * n && Volley(Deliveries(w, run), w.ctl.ours, w.fol.ours)
  {
    var run := BackAndForth(w, n);
    assert |run| == 2 * n;
  }

  lemma {:induction false} BackAndForth(w: Net, n: nat) returns (run: seq<(Side, nat)>)
    requires Volley(w, w.ctl.ours, w.fol.ours)
    ensures |run| == 2 * n && SignalCount(w, run) == 2 * n
    ensures Volley(Deliveries(w, run), w.ctl.ours, w.fol.ours)
  {
    if n == 0 {
      run := [];
    } else {
      var front := BackAndForth(w, n - 1);
      Rally(Deliveries(w, front));
      var mid := front + [(Ctl, 0)];
      assert mid[..|mid| - 1] == front;
      run := mid + [(Fol, 0)];
      assert run[..|run| - 1] == mid;
    }
  }
}
