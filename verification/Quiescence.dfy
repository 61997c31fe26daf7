/**
 * Two codecs joined by FIFO channels: when does negotiation die out?
 *
 * Each slot of one side and its mirror on the other form a lane around which verdicts
 * travel. A verdict survives a delivery only by changing the slot it meets, so lanes are
 * studied through `Dedup`: the verdicts of a queue that will really be answered.
 */
module Quiescence {
  import opened Common
  import opened TelnetFraming
  import opened TelnetNegotiation
  import opened TelnetCodec

  // ── one lane ────────────────────────────────────────────────────────────

  predicate AllAre(vs: seq<bool>, v: bool) {
    forall i :: 0 <= i < |vs| ==> vs[i] == v
  }

  lemma AllAreConcat(a: seq<bool>, b: seq<bool>, v: bool)
    ensures AllAre(a + b, v) <==> AllAre(a, v) && AllAre(b, v)
  {
    if AllAre(a + b, v) {
      assert forall i :: 0 <= i < |a| ==> a[i] == (a + b)[i];
      assert forall i :: 0 <= i < |b| ==> b[i] == (a + b)[|a| + i];
    }
  }

  /** The lane seen from the side about to receive: its slot and inbox, the far slot and our outbox. */
  datatype Lane = Lane(near: bool, inbox: seq<bool>, far: bool, outbox: seq<bool>)

  function Turned(l: Lane): Lane {
    Lane(l.far, l.outbox, l.near, l.inbox)
  }

  /** Every verdict still to be answered is `v`. */
  predicate Settled(l: Lane, v: bool) {
    AllAre(Dedup(l.near, l.inbox), v) && AllAre(Dedup(l.far, l.outbox), v)
  }

  /** Both verdicts are still to be answered somewhere on the lane. */
  predicate Contended(l: Lane) {
    !Settled(l, true) && !Settled(l, false)
  }

  /** Each side's last command in flight is the verdict its own slot holds. */
  predicate Coherent(l: Lane) {
    && (l.outbox != [] ==> l.outbox[|l.outbox| - 1] == l.near)
    && (l.inbox != [] ==> l.inbox[|l.inbox| - 1] == l.far)
  }

  function LaneReceive(l: Lane): Lane
    requires l.inbox != []
  {
    var v := l.inbox[0];
    Lane(v, l.inbox[1..], l.far, if l.near == v then l.outbox else l.outbox + [v])
  }

  lemma {:induction false} DedupSnoc(prev: bool, vs: seq<bool>, v: bool)
    ensures var last := if vs == [] then prev else vs[|vs| - 1];
            Dedup(prev, vs + [v]) == Dedup(prev, vs) + if last == v then [] else [v]
    decreases |vs|
  {
    if vs == [] {
      DedupCons(prev, v, []);
      assert [] + [v] == [v] == [v] + [];
    } else {
      assert vs + [v] == [vs[0]] + (vs[1..] + [v]);
      DedupCons(prev, vs[0], vs[1..] + [v]);
      DedupCons(prev, vs[0], vs[1..]);
      assert [vs[0]] + vs[1..] == vs;
      DedupSnoc(vs[0], vs[1..], v);
    }
  }

  /** What a delivery adds to the answers still due at the far end: its own verdict, unless already last there. */
  function OutChange(l: Lane): seq<bool>
    requires l.inbox != []
  {
    var u := l.inbox[0];
    if l.near == u || (if l.outbox == [] then l.far else l.outbox[|l.outbox| - 1]) == u then [] else [u]
  }

  function InChange(l: Lane): seq<bool>
    requires l.inbox != []
  {
    if l.near == l.inbox[0] then [] else [l.inbox[0]]
  }

  /** How a delivery changes what is still to be answered on either queue. */
  lemma ReceiveDedup(l: Lane)
    requires l.inbox != []
    ensures Dedup(l.near, l.inbox) == InChange(l) + Dedup(LaneReceive(l).near, LaneReceive(l).inbox)
    ensures Dedup(LaneReceive(l).far, LaneReceive(l).outbox) == Dedup(l.far, l.outbox) + OutChange(l)
  {
    var u := l.inbox[0];
    assert [u] + l.inbox[1..] == l.inbox;
    DedupCons(l.near, u, l.inbox[1..]);
    DedupSnoc(l.far, l.outbox, u);
    assert Dedup(l.far, l.outbox) + [] == Dedup(l.far, l.outbox);
  }

  lemma AllAreOne(u: bool, v: bool)
    ensures AllAre([u], v) <==> u == v
  {
    assert [u][0] == u;
  }

  lemma SettledStep(l: Lane, v: bool)
    requires l.inbox != [] && Settled(l, v)
    ensures Settled(LaneReceive(l), v)
    ensures l.near != l.inbox[0] ==> l.inbox[0] == v
  {
    var u := l.inbox[0];
    var m := LaneReceive(l);
    ReceiveDedup(l);
    AllAreConcat(InChange(l), Dedup(m.near, m.inbox), v);
    AllAreConcat(Dedup(l.far, l.outbox), OutChange(l), v);
    AllAreOne(u, v);
  }

  /** With nothing but `v` left to answer and a last verdict other than `v`, nothing is left to answer. */
  lemma {:induction false} SettledElsewhere(prev: bool, vs: seq<bool>, v: bool)
    requires AllAre(Dedup(prev, vs), v) && prev != v
    requires vs != [] ==> vs[|vs| - 1] != v
    ensures Dedup(prev, vs) == []
    decreases |vs|
  {
    if vs != [] {
      assert [vs[0]] + vs[1..] == vs;
      DedupCons(prev, vs[0], vs[1..]);
      if vs[0] == prev {
        SettledElsewhere(prev, vs[1..], v);
      } else {
        AllStayAtV(v, vs[1..]);
        AllAreConcat([vs[0]], Dedup(v, vs[1..]), v);
        assert false;
      }
    }
  }

  lemma {:induction false} AllStayAtV(v: bool, vs: seq<bool>)
    ensures AllAre(Dedup(v, vs), v) ==> AllAre(vs, v)
    decreases |vs|
  {
    if vs != [] {
      assert [vs[0]] + vs[1..] == vs;
      DedupCons(v, vs[0], vs[1..]);
      AllStayAtV(v, vs[1..]);
      AllAreConcat([vs[0]], vs[1..], v);
      if vs[0] != v {
        AllAreConcat([vs[0]], Dedup(vs[0], vs[1..]), v);
        assert [vs[0]][0] == vs[0];
      }
    }
  }

  /** Backwards: if a coherent lane is settled after a delivery, it was settled before it. */
  lemma SettledBack(l: Lane, v: bool)
    requires l.inbox != [] && Coherent(l) && Settled(LaneReceive(l), v)
    ensures Settled(l, true) || Settled(l, false)
  {
    var u := l.inbox[0];
    var m := LaneReceive(l);
    ReceiveDedup(l);
    AllAreConcat(InChange(l), Dedup(m.near, m.inbox), v);
    AllAreConcat(Dedup(l.far, l.outbox), OutChange(l), v);
    AllAreOne(u, v);
    if l.near == u || u == v {
      assert Settled(l, v);
    } else {
      // `u` was answered, and the answer was no change behind the outbox; by coherence
      // the outbox tail would equal `near`, so the outbox is empty and `far` holds `u`.
      assert OutChange(l) == [];
      assert l.outbox == [] && l.far == u;
      SettledElsewhere(u, l.inbox[1..], v);
      AllAreOne(u, u);
      assert Settled(l, u);
    }
  }

  /** A coherent lane with both verdicts alive keeps both alive. */
  lemma ContendedStep(l: Lane)
    requires l.inbox != [] && Coherent(l) && Contended(l)
    ensures Contended(LaneReceive(l))
  {
    if Settled(LaneReceive(l), true) {
      SettledBack(l, true);
    }
    if Settled(LaneReceive(l), false) {
      SettledBack(l, false);
    }
  }

  lemma ContendedIsBusy(l: Lane)
    requires Contended(l)
    ensures l.inbox != [] || l.outbox != []
  {
  }

  // ── two codecs ──────────────────────────────────────────────────────────

  datatype Side = A | B

  /** Both ends' slots, and the commands in flight each way. */
  datatype Net = Net(a: Slots, b: Slots, ab: seq<Cmd>, ba: seq<Cmd>)

  predicate Valid(n: Net) {
    AllCmds(n.ab) && AllCmds(n.ba)
  }

  predicate CanReceive(n: Net, to: Side) {
    if to == B then n.ab != [] else n.ba != []
  }

  /** One command arrives, is answered, and the answer joins the queue going back. */
  function Deliver(n: Net, to: Side): Net
    requires CanReceive(n, to)
  {
    match to
    case B => var (s, r) := Answer(n.b, n.ab[0]); Net(n.a, s, n.ab[1..], n.ba + r)
    case A => var (s, r) := Answer(n.a, n.ba[0]); Net(s, n.b, n.ab + r, n.ba[1..])
  }

  predicate Enabled(n: Net, schedule: seq<Side>)
    decreases |schedule|
  {
    schedule == [] || (CanReceive(n, schedule[0]) && Enabled(Deliver(n, schedule[0]), schedule[1..]))
  }

  /** Whatever order deliveries happen in, only boundedly many can. */
  ghost predicate GoesQuiet(n: Net) {
    exists bound: nat :: Bounded(n, bound)
  }

  ghost predicate Bounded(n: Net, bound: nat) {
    forall schedule: seq<Side> :: Enabled(n, schedule) ==> |schedule| <= bound
  }

  predicate AllKnown(cs: seq<Cmd>) {
    forall i :: 0 <= i < |cs| ==> Known(cs[i].opt)
  }

  /** The lane of slot `j` of the side holding `mine`. */
  function LaneAt(mine: Slots, inq: seq<Cmd>, far: Slots, outq: seq<Cmd>, j: Slot): Lane {
    Lane(Get(mine, j), VerdictsFor(j, inq), Get(far, Mirror(j)), VerdictsFor(Mirror(j), outq))
  }

  /** The lane of A's slot `k`, from the point of view of the side about to receive. */
  function LaneOf(n: Net, to: Side, k: Slot): Lane {
    match to
    case A => LaneAt(n.a, n.ba, n.b, n.ab, k)
    case B => LaneAt(n.b, n.ab, n.a, n.ba, Mirror(k))
  }

  predicate CoherentNet(n: Net) {
    forall k :: Coherent(LaneOf(n, A, k))
  }

  predicate Quarrelling(n: Net) {
    !AllKnown(n.ab) || !AllKnown(n.ba) || exists k :: Contended(LaneOf(n, A, k))
  }

  lemma TurnedLane(n: Net, k: Slot)
    ensures Mirror(Mirror(k)) == k
    ensures LaneOf(n, B, k) == Turned(LaneOf(n, A, k))
  {
  }

  function Head(n: Net, to: Side): Cmd
    requires CanReceive(n, to)
  {
    if to == A then n.ba[0] else n.ab[0]
  }

  /** The lane of A's slot on which a command arriving at `to` travels. */
  predicate OnLane(c: Cmd, to: Side, k: Slot) {
    SlotFor(c) == Some(if to == A then k else Mirror(k))
  }

  lemma ReceiveOnLane(mine: Slots, inq: seq<Cmd>, far: Slots, outq: seq<Cmd>, j: Slot)
    requires inq != [] && IsCmd(inq[0])
    ensures var (s, r) := Answer(mine, inq[0]);
            var before := LaneAt(mine, inq, far, outq, j);
            var after := LaneAt(s, inq[1..], far, outq + r, j);
            if SlotFor(inq[0]) == Some(j) then before.inbox != [] && after == LaneReceive(before) else after == before
  {
    var (s, r) := Answer(mine, inq[0]);
    AnswerAtSlot(mine, inq[0], j);
    VerdictsForConcat(Mirror(j), outq, r);
    VerdictsForHead(j, inq);
    assert VerdictsFor(Mirror(j), outq) + [] == VerdictsFor(Mirror(j), outq);
  }

  /** A delivery moves exactly the lane its command names, and that lane by one `LaneReceive`. */
  lemma DeliverOnLane(n: Net, to: Side, k: Slot)
    requires Valid(n) && CanReceive(n, to)
    ensures var before := LaneOf(n, to, k);
            if OnLane(Head(n, to), to, k)
            then before.inbox != [] && LaneOf(Deliver(n, to), to, k) == LaneReceive(before)
            else LaneOf(Deliver(n, to), to, k) == before
    ensures LaneOf(Deliver(n, to), A, k) == LaneOf(Deliver(n, to), to, k)
         || LaneOf(Deliver(n, to), A, k) == Turned(LaneOf(Deliver(n, to), to, k))
  {
    if to == A {
      ReceiveOnLane(n.a, n.ba, n.b, n.ab, k);
    } else {
      ReceiveOnLane(n.b, n.ab, n.a, n.ba, Mirror(k));
      TurnedLane(Deliver(n, to), k);
    }
  }

  lemma VerdictsForHead(k: Slot, cs: seq<Cmd>)
    requires cs != []
    ensures SlotFor(cs[0]) == Some(k) ==>
      VerdictsFor(k, cs) != [] && VerdictsFor(k, cs)[0] == Agrees(cs[0].verb)
      && VerdictsFor(k, cs)[1..] == VerdictsFor(k, cs[1..])
    ensures SlotFor(cs[0]) != Some(k) ==> VerdictsFor(k, cs) == VerdictsFor(k, cs[1..])
  {
  }

  lemma DeliverKeepsValid(n: Net, to: Side)
    requires Valid(n) && CanReceive(n, to)
    ensures Valid(Deliver(n, to))
  {
    assert IsCmd(if to == A then n.ba[0] else n.ab[0]);
  }

  // ── settled nets go quiet ───────────────────────────────────────────────

  predicate SettledNet(n: Net, goal: Slots) {
    AllKnown(n.ab) && AllKnown(n.ba) && forall k :: Settled(LaneOf(n, A, k), Get(goal, k))
  }

  /** `goal`, as the other end would hold it. */
  function Mirrored(goal: Slots): Slots {
    Slots(goal.binaryThem, goal.binaryUs, goal.sgaThem, goal.sgaUs, goal.comPort)
  }

  function Disagreements(s: Slots, goal: Slots): nat {
    (if s.binaryUs != goal.binaryUs then 1 else 0) + (if s.binaryThem != goal.binaryThem then 1 else 0)
    + (if s.sgaUs != goal.sgaUs then 1 else 0) + (if s.sgaThem != goal.sgaThem then 1 else 0)
    + (if s.comPort != goal.comPort then 1 else 0)
  }

  /** Commands in flight, plus slots that disagree with their lane's verdict. */
  function Measure(n: Net, goal: Slots): nat {
    |n.ab| + |n.ba| + Disagreements(n.a, goal) + Disagreements(n.b, Mirrored(goal))
  }

  lemma SetDisagreements(s: Slots, k: Slot, v: bool, goal: Slots)
    requires Get(s, k) != v && v == Get(goal, k)
    ensures Disagreements(Set(s, k, v), goal) == Disagreements(s, goal) - 1
  {
    match k
    case BinaryUs =>
    case BinaryThem =>
    case SgaUs =>
    case SgaThem =>
    case ComPort =>
  }

  /** An answered command swaps one disagreeing slot for one command; the rest is absorbed. */
  lemma AnswerDisagreements(s: Slots, c: Cmd, goal: Slots)
    requires SlotFor(c).Some?
    requires Get(s, SlotFor(c).value) != Agrees(c.verb) ==> Agrees(c.verb) == Get(goal, SlotFor(c).value)
    ensures |Answer(s, c).1| + Disagreements(Answer(s, c).0, goal) == Disagreements(s, goal)
  {
    if Get(s, SlotFor(c).value) != Agrees(c.verb) {
      SetDisagreements(s, SlotFor(c).value, Agrees(c.verb), goal);
    }
  }

  lemma SettledNetStep(n: Net, to: Side, goal: Slots)
    requires Valid(n) && CanReceive(n, to) && SettledNet(n, goal)
    ensures SettledNet(Deliver(n, to), goal)
  {
    var m := Deliver(n, to);
    assert Known(Head(n, to).opt) && AllKnown(m.ab) && AllKnown(m.ba);
    forall k
      ensures Settled(LaneOf(m, A, k), Get(goal, k))
    {
      DeliverOnLane(n, to, k);
      TurnedLane(n, k);
      if OnLane(Head(n, to), to, k) {
        SettledStep(LaneOf(n, to, k), Get(goal, k));
      }
    }
  }

  /** What an arriving command must say to be answered, on a settled net. */
  lemma AnsweredMeansGoal(n: Net, to: Side, goal: Slots)
    requires Valid(n) && CanReceive(n, to) && SettledNet(n, goal)
    ensures var c := Head(n, to);
            var (s, g) := if to == A then (n.a, goal) else (n.b, Mirrored(goal));
            && SlotFor(c).Some?
            && (Get(s, SlotFor(c).value) != Agrees(c.verb) ==> Agrees(c.verb) == Get(g, SlotFor(c).value))
  {
    var c := Head(n, to);
    assert Known(c.opt);
    var j := SlotFor(c).value;
    var k := if to == A then j else Mirror(j);
    TurnedLane(n, j);
    TurnedLane(n, k);
    assert OnLane(c, to, k);
    DeliverOnLane(n, to, k);
    VerdictsForHead(j, if to == A then n.ba else n.ab);
    SettledStep(LaneOf(n, to, k), Get(goal, k));
    assert to == B ==> Get(Mirrored(goal), j) == Get(goal, k);
  }

  /** Each delivery keeps the net settled and brings it exactly one step closer to silence. */
  lemma DeliveryLowersMeasure(n: Net, to: Side, goal: Slots)
    requires Valid(n) && CanReceive(n, to) && SettledNet(n, goal)
    ensures Valid(Deliver(n, to)) && SettledNet(Deliver(n, to), goal)
    ensures Measure(Deliver(n, to), goal) == Measure(n, goal) - 1
  {
    DeliverKeepsValid(n, to);
    SettledNetStep(n, to, goal);
    AnsweredMeansGoal(n, to, goal);
    if to == A {
      AnswerDisagreements(n.a, n.ba[0], goal);
    } else {
      AnswerDisagreements(n.b, n.ab[0], Mirrored(goal));
    }
  }

  lemma {:induction false} SettledIsBounded(n: Net, goal: Slots, schedule: seq<Side>)
    requires Valid(n) && SettledNet(n, goal) && Enabled(n, schedule)
    ensures |schedule| <= Measure(n, goal)
    decreases |schedule|
  {
    if schedule != [] {
      DeliveryLowersMeasure(n, schedule[0], goal);
      SettledIsBounded(Deliver(n, schedule[0]), goal, schedule[1..]);
    }
  }

  /** The simplest way to be settled: every command in flight on a lane carries one verdict. */
  lemma UniformIsSettled(n: Net, goal: Slots)
    requires AllKnown(n.ab) && AllKnown(n.ba)
    requires forall k :: AllAre(VerdictsFor(k, n.ba), Get(goal, k))
    requires forall k :: AllAre(VerdictsFor(Mirror(k), n.ab), Get(goal, k))
    ensures SettledNet(n, goal)
  {
    forall k
      ensures Settled(LaneOf(n, A, k), Get(goal, k))
    {
      UniformDedup(Get(n.a, k), VerdictsFor(k, n.ba), Get(goal, k));
      UniformDedup(Get(n.b, Mirror(k)), VerdictsFor(Mirror(k), n.ab), Get(goal, k));
    }
  }

  lemma {:induction false} UniformDedup(prev: bool, vs: seq<bool>, v: bool)
    requires AllAre(vs, v)
    ensures AllAre(Dedup(prev, vs), v)
    decreases |vs|
  {
    if vs != [] {
      UniformDedup(vs[0], vs[1..], v);
    }
  }

  // ── quarrelling nets never do ───────────────────────────────────────────

  /** Coherence is what the codec itself keeps: an answer is always the verdict just adopted. */
  lemma CoherenceIsKept(n: Net, to: Side)
    requires Valid(n) && CanReceive(n, to) && CoherentNet(n)
    ensures CoherentNet(Deliver(n, to))
  {
    forall k
      ensures Coherent(LaneOf(Deliver(n, to), A, k))
    {
      DeliverOnLane(n, to, k);
      TurnedLane(n, k);
      if OnLane(Head(n, to), to, k) {
        CoherentStep(LaneOf(n, to, k));
      }
    }
  }

  lemma QuarrelStep(n: Net, to: Side)
    requires Valid(n) && CanReceive(n, to) && CoherentNet(n) && Quarrelling(n)
    ensures Valid(Deliver(n, to)) && CoherentNet(Deliver(n, to)) && Quarrelling(Deliver(n, to))
  {
    DeliverKeepsValid(n, to);
    CoherenceIsKept(n, to);
    if !AllKnown(n.ab) || !AllKnown(n.ba) {
      UnknownSurvives(n, to);
    } else {
      var k :| Contended(LaneOf(n, A, k));
      ContendedLaneStep(n, to, k);
    }
  }

  lemma ContendedLaneStep(n: Net, to: Side, k: Slot)
    requires Valid(n) && CanReceive(n, to) && Coherent(LaneOf(n, A, k)) && Contended(LaneOf(n, A, k))
    ensures Contended(LaneOf(Deliver(n, to), A, k))
  {
    DeliverOnLane(n, to, k);
    TurnedLane(n, k);
    if OnLane(Head(n, to), to, k) {
      ContendedStep(LaneOf(n, to, k));
    }
  }

  lemma CoherentStep(l: Lane)
    requires l.inbox != [] && Coherent(l)
    ensures Coherent(LaneReceive(l))
  {
  }

  /** A refusal of an unknown option is answered by a refusal: it never leaves the wire. */
  lemma UnknownSurvives(n: Net, to: Side)
    requires Valid(n) && CanReceive(n, to)
    requires !AllKnown(n.ab) || !AllKnown(n.ba)
    ensures !AllKnown(Deliver(n, to).ab) || !AllKnown(Deliver(n, to).ba)
  {
    var m := Deliver(n, to);
    var q := if to == A then n.ba else n.ab;
    var o := if to == A then n.ab else n.ba;
    var q' := if to == A then m.ba else m.ab;
    var o' := if to == A then m.ab else m.ba;
    if i :| 0 <= i < |o| && !Known(o[i].opt) {
      assert o'[i] == o[i];
    } else {
      var i :| 0 <= i < |q| && !Known(q[i].opt);
      if i == 0 {
        assert !Known(o'[|o|].opt);
      } else {
        assert q'[i - 1] == q[i];
      }
    }
  }

  lemma {:induction false} QuarrelNeverEnds(n: Net, length: nat) returns (schedule: seq<Side>)
    requires Valid(n) && CoherentNet(n) && Quarrelling(n)
    ensures Enabled(n, schedule) && |schedule| == length
    decreases length
  {
    if length == 0 {
      return [];
    }
    if n.ab == [] && n.ba == [] {
      var k :| Contended(LaneOf(n, A, k));
      ContendedIsBusy(LaneOf(n, A, k));
      assert false;
    }
    var to := if n.ab != [] then B else A;
    QuarrelStep(n, to);
    var rest := QuarrelNeverEnds(Deliver(n, to), length - 1);
    schedule := [to] + rest;
    assert schedule[1..] == rest;
  }

  /**
   * The exact condition. Between codecs that only ever announce what their slots hold,
   * negotiation dies out under every delivery order if and only if no command for an
   * unknown option is in flight and no lane has both verdicts still to be answered.
   */
  lemma QuietExactlyWhenNotQuarrelling(n: Net)
    requires Valid(n) && CoherentNet(n)
    ensures GoesQuiet(n) <==> !Quarrelling(n)
  {
    if Quarrelling(n) {
      forall bound: nat
        ensures !Bounded(n, bound)
      {
        var schedule := QuarrelNeverEnds(n, bound + 1);
      }
    } else {
      var goal := Goal(n);
      NotQuarrellingIsSettled(n);
      forall schedule | Enabled(n, schedule)
        ensures |schedule| <= Measure(n, goal)
      {
        SettledIsBounded(n, goal, schedule);
      }
      assert Bounded(n, Measure(n, goal));
    }
  }

  function Goal(n: Net): Slots {
    Slots(GoalOf(n, BinaryUs), GoalOf(n, BinaryThem), GoalOf(n, SgaUs), GoalOf(n, SgaThem), GoalOf(n, ComPort))
  }

  lemma NotQuarrellingIsSettled(n: Net)
    requires !Quarrelling(n)
    ensures SettledNet(n, Goal(n))
  {
    forall k
      ensures Settled(LaneOf(n, A, k), Get(Goal(n), k))
    {
      assert !Contended(LaneOf(n, A, k));
      GetGoal(n, k);
    }
  }

  lemma GetGoal(n: Net, k: Slot)
    ensures Get(Goal(n), k) == GoalOf(n, k)
  {
    match k
    case BinaryUs =>
    case BinaryThem =>
    case SgaUs =>
    case SgaThem =>
    case ComPort =>
  }

  function GoalOf(n: Net, k: Slot): bool {
    Settled(LaneOf(n, A, k), true)
  }

  // ── any net at all ──────────────────────────────────────────────────────

  /** Deliveries to the two sides commute: each touches its own slots and opposite ends of the queues. */
  lemma DeliveriesCommute(n: Net)
    requires n.ab != [] && n.ba != []
    ensures Deliver(Deliver(n, A), B) == Deliver(Deliver(n, B), A)
  {
    var ra, rb := Answer(n.a, n.ba[0]).1, Answer(n.b, n.ab[0]).1;
    assert (n.ab + ra)[1..] == n.ab[1..] + ra && (n.ba + rb)[1..] == n.ba[1..] + rb;
  }

  /** Taking any delivery first shortens what can still happen by at most one. */
  lemma {:induction false} DeliverFirst(n: Net, to: Side, schedule: seq<Side>) returns (rest: seq<Side>)
    requires CanReceive(n, to) && schedule != [] && Enabled(n, schedule)
    ensures Enabled(Deliver(n, to), rest) && |rest| == |schedule| - 1
    decreases |schedule|
  {
    hide Answer;
    var first := schedule[0];
    if first == to || |schedule| == 1 {
      rest := if first == to then schedule[1..] else [];
    } else {
      DeliveriesCommute(n);
      var later := DeliverFirst(Deliver(n, first), to, schedule[1..]);
      rest := [first] + later;
      assert rest[1..] == later;
    }
  }

  /** So whether a net goes quiet does not depend on which delivery comes first. */
  lemma QuietSurvivesDelivery(n: Net, to: Side)
    requires CanReceive(n, to)
    ensures GoesQuiet(n) <==> GoesQuiet(Deliver(n, to))
  {
    var m := Deliver(n, to);
    if bound: nat :| Bounded(n, bound) {
      forall schedule | Enabled(m, schedule)
        ensures |schedule| <= bound
      {
        assert ([to] + schedule)[1..] == schedule;
        assert Enabled(n, [to] + schedule);
      }
      assert Bounded(m, bound);
    }
    if bound: nat :| Bounded(m, bound) {
      forall schedule | Enabled(n, schedule)
        ensures |schedule| <= bound + 1
      {
        if schedule != [] {
          var rest := DeliverFirst(n, to, schedule);
        }
      }
      assert Bounded(n, bound + 1);
    }
  }

  /** Everything in flight towards B delivered, then everything in flight towards A. */
  function Flushed(n: Net): Net {
    var (b, rs) := AnswerAll(n.b, n.ab);
    var (a, ss) := AnswerAll(n.a, n.ba + rs);
    Net(a, b, ss, [])
  }

  lemma {:induction false} FlushTowardsB(n: Net)
    ensures GoesQuiet(n) <==> GoesQuiet(Net(n.a, AnswerAll(n.b, n.ab).0, [], n.ba + AnswerAll(n.b, n.ab).1))
    decreases |n.ab|
  {
    hide Answer, GoesQuiet;
    if n.ab == [] {
      assert n.ba + [] == n.ba;
    } else {
      var r := Answer(n.b, n.ab[0]).1;
      QuietSurvivesDelivery(n, B);
      FlushTowardsB(Deliver(n, B));
      Assoc(n.ba, r, AnswerAll(Answer(n.b, n.ab[0]).0, n.ab[1..]).1);
    }
  }

  lemma {:induction false} FlushTowardsA(n: Net)
    ensures GoesQuiet(n) <==> GoesQuiet(Net(AnswerAll(n.a, n.ba).0, n.b, n.ab + AnswerAll(n.a, n.ba).1, []))
    decreases |n.ba|
  {
    hide Answer, GoesQuiet;
    if n.ba == [] {
      assert n.ab + [] == n.ab;
    } else {
      var r := Answer(n.a, n.ba[0]).1;
      QuietSurvivesDelivery(n, A);
      FlushTowardsA(Deliver(n, A));
      Assoc(n.ab, r, AnswerAll(Answer(n.a, n.ba[0]).0, n.ba[1..]).1);
    }
  }

  lemma {:induction false} DedupKeepsLast(prev: bool, vs: seq<bool>)
    ensures var d := Dedup(prev, vs);
            && (d != [] ==> vs != [] && d[|d| - 1] == vs[|vs| - 1])
            && (d == [] && vs != [] ==> vs[|vs| - 1] == prev)
    decreases |vs|
  {
    if vs != [] {
      assert [vs[0]] + vs[1..] == vs;
      DedupCons(prev, vs[0], vs[1..]);
      DedupKeepsLast(vs[0], vs[1..]);
    }
  }

  lemma FlushedIsCoherent(n: Net)
    requires Valid(n)
    ensures Valid(Flushed(n)) && CoherentNet(Flushed(n))
  {
    var rs := AnswerAll(n.b, n.ab).1;
    var inflight := n.ba + rs;
    AnswersNeverMultiply(n.b, n.ab);
    AnswersNeverMultiply(n.a, inflight);
    forall k
      ensures Coherent(LaneOf(Flushed(n), A, k))
    {
      RepliesAreDedupedVerdicts(n.a, inflight, k);
      SlotHoldsLastVerdict(n.a, inflight, k);
      DedupKeepsLast(Get(n.a, k), VerdictsFor(k, inflight));
    }
  }

  /**
   * The exact condition for any net, however its slots and queues came about: flush what
   * is in flight once each way, and look for a quarrel in what is left.
   */
  lemma QuietExactlyWhenFlushedIsPeaceful(n: Net)
    requires Valid(n)
    ensures GoesQuiet(n) <==> !Quarrelling(Flushed(n))
  {
    hide GoesQuiet, Quarrelling, CoherentNet;
    FlushTowardsB(n);
    FlushTowardsA(Net(n.a, AnswerAll(n.b, n.ab).0, [], n.ba + AnswerAll(n.b, n.ab).1));
    var ss := AnswerAll(n.a, n.ba + AnswerAll(n.b, n.ab).1).1;
    assert [] + ss == ss;
    FlushedIsCoherent(n);
    QuietExactlyWhenNotQuarrelling(Flushed(n));
  }

  /** An offer and a refusal of BINARY that crossed on the wire. */
  const CROSSED := Net(FRESH, FRESH.(binaryThem := false), [Cmd(WILL, OPT_BINARY)], [Cmd(DONT, OPT_BINARY)])

  /** Opposite verdicts for one option, in flight together, chase each other: four deliveries change nothing. */
  lemma OppositeVerdictsChase()
    ensures Deliver(CROSSED, B) == Net(FRESH, FRESH, [], [Cmd(DONT, OPT_BINARY), Cmd(DO, OPT_BINARY)])
    ensures Deliver(Deliver(Deliver(Deliver(CROSSED, B), A), A), B) == CROSSED
    ensures !GoesQuiet(CROSSED)
  {
    hide GoesQuiet, Deliver, Quarrelling, CoherentNet;
    CrossedThere();
    CrossedBack();
    CrossedQuarrels();
    QuietExactlyWhenNotQuarrelling(CROSSED);
  }

  /** Half way round: the refusal has been answered, the late offer has not. */
  const CROSSED_BACK :=
    Net(FRESH.(binaryUs := false), FRESH, [Cmd(WONT, OPT_BINARY)], [Cmd(DO, OPT_BINARY)])

  lemma CrossedThere()
    ensures Deliver(CROSSED, B) == Net(FRESH, FRESH, [], [Cmd(DONT, OPT_BINARY), Cmd(DO, OPT_BINARY)])
    ensures Deliver(Deliver(CROSSED, B), A) == CROSSED_BACK
  {
    hide GoesQuiet;
    assert [Cmd(DONT, OPT_BINARY)] + [Cmd(DO, OPT_BINARY)] == [Cmd(DONT, OPT_BINARY), Cmd(DO, OPT_BINARY)];
    assert Deliver(CROSSED, B) == Net(FRESH, FRESH, [], [Cmd(DONT, OPT_BINARY), Cmd(DO, OPT_BINARY)]);
  }

  lemma CrossedBack()
    ensures Deliver(Deliver(CROSSED_BACK, A), B) == CROSSED
  {
    hide GoesQuiet;
    var n := Deliver(CROSSED_BACK, A);
    assert [Cmd(WONT, OPT_BINARY)] + [Cmd(WILL, OPT_BINARY)] == [Cmd(WONT, OPT_BINARY), Cmd(WILL, OPT_BINARY)];
    assert n == Net(FRESH, FRESH, [Cmd(WONT, OPT_BINARY), Cmd(WILL, OPT_BINARY)], []);
  }

  lemma CrossedQuarrels()
    ensures CoherentNet(CROSSED) && Quarrelling(CROSSED)
  {
    var l := LaneOf(CROSSED, A, BinaryUs);
    VerdictsForHead(BinaryUs, CROSSED.ba);
    VerdictsForHead(BinaryThem, CROSSED.ab);
    assert l == Lane(true, [false], false, [true]);
    DedupCons(true, false, []);
    DedupCons(false, true, []);
    assert [false] + [] == [false] && [true] + [] == [true];
    assert Dedup(true, [false])[0] == false && Dedup(false, [true])[0] == true;
    assert Contended(l);
    forall k
      ensures Coherent(LaneOf(CROSSED, A, k))
    {
      VerdictsForHead(k, CROSSED.ba);
      VerdictsForHead(Mirror(k), CROSSED.ab);
    }
  }

  /** Two fresh codecs that exchange their opening offers never answer anything at all. */
  lemma OpeningOffersDrawNoReply()
    ensures AnswerAll(FRESH, OFFERS) == (FRESH, [])
    ensures Decoding(NEW, CmdBytes(OFFERS)) == (NEW, NOTHING)
  {
    hide AnswerAll, CmdEvents;
    AgreementsAreAbsorbed(OFFERS);
    CmdBytesEvents(OFFERS);
    DecodingIsExact(FRESH, CmdEvents(OFFERS));
  }

  /** And the exchange is over once every offer has been delivered. */
  lemma OpeningOffersGoQuiet()
    ensures GoesQuiet(Net(FRESH, FRESH, OFFERS, OFFERS))
  {
    hide GoesQuiet;
    assert AllCmds(OFFERS);
    var n := Net(FRESH, FRESH, OFFERS, OFFERS);
    forall k
      ensures AllAre(VerdictsFor(k, OFFERS), true)
    {
      AgreementsAgree(k, OFFERS);
    }
    UniformIsSettled(n, FRESH);
    forall k
      ensures Coherent(LaneOf(n, A, k)) && !Contended(LaneOf(n, A, k))
    {
      assert Get(FRESH, k) && Get(FRESH, Mirror(k));
      assert AllAre(VerdictsFor(k, OFFERS), true) && AllAre(VerdictsFor(Mirror(k), OFFERS), true);
    }
    QuietExactlyWhenNotQuarrelling(n);
  }

  lemma {:induction false} AgreementsAreAbsorbed(cs: seq<Cmd>)
    requires forall i :: 0 <= i < |cs| ==> Known(cs[i].opt) && Agrees(cs[i].verb)
    ensures AnswerAll(FRESH, cs) == (FRESH, [])
  {
    if cs != [] {
      assert Known(cs[0].opt) && Agrees(cs[0].verb);
      assert forall k :: Get(FRESH, k);
      assert Answer(FRESH, cs[0]) == (FRESH, []);
      AgreementsAreAbsorbed(cs[1..]);
      assert AnswerAll(FRESH, cs[1..]) == (FRESH, []);
      var none: seq<Cmd> := [];
      assert none + none == none;
    }
  }

  lemma {:induction false} AgreementsAgree(k: Slot, cs: seq<Cmd>)
    requires forall i :: 0 <= i < |cs| ==> Agrees(cs[i].verb)
    ensures AllAre(VerdictsFor(k, cs), true)
  {
    if cs != [] {
      AgreementsAgree(k, cs[1..]);
    }
  }

  /** A refused unknown option really does bounce for ever: the "once" of the source's comment does not hold. */
  lemma UnknownRefusalBounces(opt: byte)
    requires !Known(opt)
    ensures var n := Net(FRESH, FRESH, [Cmd(DONT, opt)], []);
            Deliver(Deliver(n, B), A) == n && !GoesQuiet(n)
  {
    var n := Net(FRESH, FRESH, [Cmd(DONT, opt)], []);
    assert Deliver(n, B) == Net(FRESH, FRESH, [], [Cmd(WONT, opt)]);
    assert !Known(n.ab[0].opt);
    forall k
      ensures Coherent(LaneOf(n, A, k))
    {
      assert SlotFor(n.ab[0]) == None;
      VerdictsForHead(Mirror(k), n.ab);
    }
    QuietExactlyWhenNotQuarrelling(n);
  }
}
