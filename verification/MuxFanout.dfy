/**
 * Device to consumers: one reader publishes, any number of consumers receive at their
 * own pace. Runs of the fan-out, step by step.
 *
 * The runtime is single-threaded and nothing is awaited between spawning the reader and
 * the last subscription, so every run starts with all consumers subscribed and nothing
 * published.
 */
module MuxFanout {
  import opened Common
  import opened MuxRing

  /** One answer a consumer got, and how many reads were published by then. */
  datatype Entry = Entry(received: Received, seen: nat)

  /** A consumer: its cursor, and everything it was told. */
  datatype Consumer = Consumer(next: nat, log: seq<Entry>)

  datatype Fanout = Fanout(published: seq<Read>, consumers: seq<Consumer>)

  /** All ports subscribed, nothing read from the device yet. */
  function Opened(ports: nat): Fanout {
    Fanout([], seq(ports, _ => Consumer(0, [])))
  }

  datatype Action = Publish(read: Read) | Recv(i: nat)

  predicate Enabled(f: Fanout, a: Action) {
    a.Recv? ==> a.i < |f.consumers|
  }

  function Take(published: seq<Read>, c: Consumer): Consumer
    requires c.next <= |published|
  {
    var (next, r) := Receive(published, c.next);
    if r == Empty then c else Consumer(next, c.log + [Entry(r, |published|)])
  }

  /** A read sent when no port exists is stored nowhere. */
  function Step(f: Fanout, a: Action): Fanout
    requires Inv(f) && Enabled(f, a)
  {
    match a
    case Publish(read) => if f.consumers == [] then f else f.(published := f.published + [read])
    case Recv(i) => f.(consumers := f.consumers[i := Take(f.published, f.consumers[i])])
  }

  // ── what a log says ─────────────────────────────────────────────────────

  function ReadIn(e: Entry): seq<Read> {
    if e.received.Got? then [e.received.read] else []
  }

  /** The reads a consumer was given. */
  function ReadsOf(log: seq<Entry>): seq<Read> {
    FlatMap(ReadIn, log)
  }

  /** How many reads it was told it lost. */
  function LostIn(log: seq<Entry>): nat {
    if log == [] then 0
    else (if log[|log| - 1].received.Lagged? then log[|log| - 1].received.missed else 0) + LostIn(log[..|log| - 1])
  }

  /**
   * A log explains itself: walked from the first read on, each read given is the next
   * published one, still retained when given; each gap is reported, is not empty, and
   * reaches exactly to the oldest read then retained. The walk ends at `next`.
   */
  predicate Explains(published: seq<Read>, log: seq<Entry>, next: nat)
    decreases |log|
  {
    if log == [] then next == 0
    else
      var e := log[|log| - 1];
      && e.seen <= |published|
      && (match e.received
          case Got(read) =>
            && 1 <= next <= e.seen <= next - 1 + BACKLOG && read == published[next - 1]
            && Explains(published, log[..|log| - 1], next - 1)
          case Lagged(missed) =>
            && 1 <= missed <= next && next + BACKLOG == e.seen
            && Explains(published, log[..|log| - 1], next - missed)
          case Empty => false)
  }

  predicate ConsumerInv(published: seq<Read>, c: Consumer) {
    && c.next <= |published|
    && Explains(published, c.log, c.next)
    && |ReadsOf(c.log)| + LostIn(c.log) == c.next
  }

  predicate Inv(f: Fanout) {
    forall i :: 0 <= i < |f.consumers| ==> ConsumerInv(f.published, f.consumers[i])
  }

  lemma {:induction false} ExplainsMore(published: seq<Read>, read: Read, log: seq<Entry>, next: nat)
    requires Explains(published, log, next) && next <= |published|
    ensures Explains(published + [read], log, next)
    decreases |log|
  {
    if log != [] {
      var e := log[|log| - 1];
      match e.received
      case Got(_) => ExplainsMore(published, read, log[..|log| - 1], next - 1);
      case Lagged(missed) => ExplainsMore(published, read, log[..|log| - 1], next - missed);
    }
  }

  lemma TakeKeeps(published: seq<Read>, c: Consumer)
    requires ConsumerInv(published, c)
    ensures ConsumerInv(published, Take(published, c))
  {
    var (next, r) := Receive(published, c.next);
    if r != Empty {
      var e := Entry(r, |published|);
      var log := c.log + [e];
      assert log[..|log| - 1] == c.log && log[|log| - 1] == e;
      FlatMapSnoc(ReadIn, c.log, e);
    }
  }

  lemma StepKeeps(f: Fanout, a: Action)
    requires Inv(f) && Enabled(f, a)
    ensures Inv(Step(f, a))
  {
    hide Explains, Take;
    match a
    case Publish(read) =>
      forall i | 0 <= i < |f.consumers|
        ensures ConsumerInv(f.published + [read], f.consumers[i])
      {
        assert ConsumerInv(f.published, f.consumers[i]);
        ExplainsMore(f.published, read, f.consumers[i].log, f.consumers[i].next);
      }
    case Recv(i) =>
      TakeKeeps(f.published, f.consumers[i]);
  }

  // ── whole runs ──────────────────────────────────────────────────────────

  predicate Possible(f: Fanout, actions: seq<Action>)
    requires Inv(f)
    decreases |actions|
  {
    actions == [] ||
    (Enabled(f, actions[0]) && (StepKeeps(f, actions[0]); Possible(Step(f, actions[0]), actions[1..])))
  }

  function Run(f: Fanout, actions: seq<Action>): (g: Fanout)
    requires Inv(f) && Possible(f, actions)
    ensures Inv(g) && |g.consumers| == |f.consumers|
    decreases |actions|
  {
    if actions == [] then f
    else
      StepKeeps(f, actions[0]);
      Run(Step(f, actions[0]), actions[1..])
  }

  /** The device's reads, in order. */
  function DeviceReads(actions: seq<Action>): seq<Read> {
    if actions == [] then []
    else (if actions[0].Publish? then [actions[0].read] else []) + DeviceReads(actions[1..])
  }

  lemma {:induction false} EveryReadIsPublished(f: Fanout, actions: seq<Action>)
    requires Inv(f) && Possible(f, actions) && f.consumers != []
    ensures Run(f, actions).published == f.published + DeviceReads(actions)
    decreases |actions|
  {
    if actions == [] {
      assert f.published + [] == f.published;
    } else {
      StepKeeps(f, actions[0]);
      EveryReadIsPublished(Step(f, actions[0]), actions[1..]);
      var rest := DeviceReads(actions[1..]);
      if actions[0].Publish? {
        Assoc(f.published, [actions[0].read], rest);
      } else {
        assert [] + rest == rest;
      }
    }
  }

  lemma OpenedInv(ports: nat)
    ensures Inv(Opened(ports))
  {
  }

  /**
   * Fan-out, in every run and for every consumer: every device read is published; its log
   * explains itself from the very first read on; and the device's reads are exactly those
   * received, those reported lost and those still ahead of its cursor.
   */
  lemma FanoutIsFaithful(ports: nat, actions: seq<Action>, i: nat)
    requires i < ports && Possible(Opened(ports), actions)
    ensures var f := Run(Opened(ports), actions);
            && f.published == DeviceReads(actions)
            && var c := f.consumers[i];
            && Explains(f.published, c.log, c.next)
            && c.next <= |f.published|
            && |DeviceReads(actions)| == |ReadsOf(c.log)| + LostIn(c.log) + (|f.published| - c.next)
  {
    hide Run, Explains;
    OpenedInv(ports);
    EveryReadIsPublished(Opened(ports), actions);
    assert [] + DeviceReads(actions) == DeviceReads(actions);
    assert ConsumerInv(Run(Opened(ports), actions).published, Run(Opened(ports), actions).consumers[i]);
  }

  // ── a consumer that keeps up ────────────────────────────────────────────

  predicate NoLag(log: seq<Entry>) {
    forall i :: 0 <= i < |log| ==> !log[i].received.Lagged?
  }

  /** A self-explaining log without gaps is the published stream. */
  lemma {:induction false} GaplessIsWhole(published: seq<Read>, log: seq<Entry>, next: nat)
    requires Explains(published, log, next) && NoLag(log) && next <= |published|
    ensures ReadsOf(log) == published[..next]
    decreases |log|
  {
    hide Explains, NoLag;
    if log == [] {
      NothingExplained(published, next);
    } else {
      var e := log[|log| - 1];
      var before := log[..|log| - 1];
      LastIsNext(published, log, next);
      GaplessIsWhole(published, before, next - 1);
      assert log == before + [e] && ReadIn(e) == [published[next - 1]];
      FlatMapSnoc(ReadIn, before, e);
      assert published[..next] == published[..next - 1] + [published[next - 1]];
    }
  }

  lemma NothingExplained(published: seq<Read>, next: nat)
    requires Explains(published, [], next)
    ensures next == 0
  {
  }

  lemma LastIsNext(published: seq<Read>, log: seq<Entry>, next: nat)
    requires Explains(published, log, next) && NoLag(log) && log != []
    ensures var (before, e) := (log[..|log| - 1], log[|log| - 1]);
            && 1 <= next <= |published| && e.received == Got(published[next - 1])
            && Explains(published, before, next - 1) && NoLag(before)
  {
    assert !log[|log| - 1].received.Lagged?;
  }

  /** A log with a gap has lost something. */
  lemma {:induction false} GapIsLoss(published: seq<Read>, log: seq<Entry>, next: nat)
    requires Explains(published, log, next) && !NoLag(log)
    ensures LostIn(log) > 0
    decreases |log|
  {
    var before := log[..|log| - 1];
    var e := log[|log| - 1];
    if !e.received.Lagged? {
      var k :| 0 <= k < |log| && log[k].received.Lagged?;
      assert before[k].received.Lagged?;
      GapIsLoss(published, before, next - 1);
    }
  }

  /** Whenever consumer `i` receives, it is at most 256 reads behind. */
  predicate KeepsUp(f: Fanout, actions: seq<Action>, i: nat)
    requires Inv(f) && Possible(f, actions)
    decreases |actions|
  {
    actions == [] ||
    ((actions[0] == Recv(i) ==> |f.published| <= f.consumers[i].next + 256)
     && (StepKeeps(f, actions[0]); KeepsUp(Step(f, actions[0]), actions[1..], i)))
  }

  lemma NoLagSnoc(log: seq<Entry>, e: Entry)
    ensures NoLag(log + [e]) <==> NoLag(log) && !e.received.Lagged?
  {
    assert forall k :: 0 <= k < |log| ==> (log + [e])[k] == log[k];
    assert (log + [e])[|log|] == e;
  }

  lemma TakeLags(published: seq<Read>, c: Consumer)
    requires c.next <= |published|
    ensures NoLag(Take(published, c).log) <==> NoLag(c.log) && |published| <= c.next + BACKLOG
  {
    var (_, r) := Receive(published, c.next);
    NoLagSnoc(c.log, Entry(r, |published|));
  }

  lemma {:induction false} LagsExactly(f: Fanout, actions: seq<Action>, i: nat)
    requires Inv(f) && Possible(f, actions) && i < |f.consumers|
    ensures NoLag(Run(f, actions).consumers[i].log) <==> NoLag(f.consumers[i].log) && KeepsUp(f, actions, i)
    decreases |actions|
  {
    hide NoLag, Take;
    if actions != [] {
      if actions[0] == Recv(i) {
        TakeLags(f.published, f.consumers[i]);
      }
      StepKeeps(f, actions[0]);
      LagsExactly(Step(f, actions[0]), actions[1..], i);
    }
  }

  /**
   * Whole stream, exactly: what a consumer was given is the device's stream up to its
   * cursor if and only if it was never more than BACKLOG reads behind when it received,
   * whatever the others did.
   */
  lemma WholeStreamExactlyWhenKeepingUp(ports: nat, actions: seq<Action>, i: nat)
    requires i < ports && Possible(Opened(ports), actions)
    ensures var f := Run(Opened(ports), actions);
            && f.consumers[i].next <= |DeviceReads(actions)|
            && (ReadsOf(f.consumers[i].log) == DeviceReads(actions)[..f.consumers[i].next]
                <==> KeepsUp(Opened(ports), actions, i))
  {
    hide Run, KeepsUp, Explains;
    FanoutIsFaithful(ports, actions, i);
    OpenedInv(ports);
    LagsExactly(Opened(ports), actions, i);
    var f := Run(Opened(ports), actions);
    var c := f.consumers[i];
    assert NoLag(Opened(ports).consumers[i].log);
    if NoLag(c.log) {
      GaplessIsWhole(f.published, c.log, c.next);
    } else {
      GapIsLoss(f.published, c.log, c.next);
    }
  }

  // ── receiving makes progress ────────────────────────────────────────────

  lemma TakeMoves(published: seq<Read>, c: Consumer)
    requires c.next <= |published|
    ensures var d := Take(published, c);
            if c.next == |published| then d == c
            else c.next < d.next <= |published| && |d.log| == |c.log| + 1
  {
  }

  /**
   * Progress, in every run: a consumer that receives is told nothing if and only if it
   * stands at the end of what the device has sent; otherwise its cursor moves on.
   */
  lemma ReceivingMovesOn(ports: nat, actions: seq<Action>, i: nat)
    requires i < ports && Possible(Opened(ports), actions)
    ensures var f := Run(Opened(ports), actions);
            && Enabled(f, Recv(i)) && (forall read :: Enabled(f, Publish(read)))
            && var c, d := f.consumers[i], Step(f, Recv(i)).consumers[i];
            && (d == c <==> c.next == |DeviceReads(actions)|)
            && (d != c ==> c.next < d.next <= |DeviceReads(actions)|)
  {
    hide Run, Explains, Take;
    OpenedInv(ports);
    FanoutIsFaithful(ports, actions, i);
    var f := Run(Opened(ports), actions);
    TakeMoves(f.published, f.consumers[i]);
  }

  /** A consumer that receives `n` times in a row. */
  function Receives(i: nat, n: nat): seq<Action> {
    if n == 0 then [] else [Recv(i)] + Receives(i, n - 1)
  }

  lemma {:induction false} ReceivingReachesTheEnd(f: Fanout, i: nat, n: nat)
    requires Inv(f) && i < |f.consumers| && n >= |f.published| - f.consumers[i].next
    ensures Possible(f, Receives(i, n))
    ensures var g := Run(f, Receives(i, n));
            && g.published == f.published
            && g.consumers[i].next == |f.published|
            && (NoLag(f.consumers[i].log) && |f.published| <= f.consumers[i].next + BACKLOG ==>
                  NoLag(g.consumers[i].log))
    decreases n
  {
    hide NoLag, Explains, Take, ReadsOf, LostIn;
    assert ConsumerInv(f.published, f.consumers[i]);
    if n > 0 {
      assert Receives(i, n)[1..] == Receives(i, n - 1);
      StepKeeps(f, Recv(i));
      TakeMoves(f.published, f.consumers[i]);
      TakeLags(f.published, f.consumers[i]);
      ReceivingReachesTheEnd(Step(f, Recv(i)), i, n - 1);
    }
  }

  /**
   * Everything, in the end: a consumer that kept up, and then receives until nothing comes,
   * has every device read, in order.
   */
  lemma KeepingUpGetsEverything(ports: nat, actions: seq<Action>, i: nat, n: nat)
    requires i < ports && Possible(Opened(ports), actions) && KeepsUp(Opened(ports), actions, i)
    requires |DeviceReads(actions)| <= Run(Opened(ports), actions).consumers[i].next + 256
    requires n >= |DeviceReads(actions)| - Run(Opened(ports), actions).consumers[i].next
    ensures Possible(Run(Opened(ports), actions), Receives(i, n))
    ensures var g := Run(Run(Opened(ports), actions), Receives(i, n));
            ReadsOf(g.consumers[i].log) == DeviceReads(actions)
  {
    hide Run, KeepsUp, Explains, Possible, DeviceReads;
    OpenedInv(ports);
    FanoutIsFaithful(ports, actions, i);
    LagsExactly(Opened(ports), actions, i);
    assert NoLag(Opened(ports).consumers[i].log);
    var f := Run(Opened(ports), actions);
    ReceivingReachesTheEnd(f, i, n);
    var g := Run(f, Receives(i, n));
    assert ConsumerInv(g.published, g.consumers[i]);
    GaplessIsWhole(g.published, g.consumers[i].log, g.consumers[i].next);
    assert g.published[..|g.published|] == g.published;
  }

  // ── no consumer affects another ─────────────────────────────────────────

  /** The actions that can reach consumer `i`. */
  function For(i: nat, actions: seq<Action>): seq<Action> {
    if actions == [] then []
    else (if actions[0].Publish? || actions[0] == Recv(i) then [actions[0]] else []) + For(i, actions[1..])
  }

  /** A consumer alone with the published stream. */
  function Alone(published: seq<Read>, c: Consumer, actions: seq<Action>): Consumer
    decreases |actions|
  {
    if actions == [] then c
    else match actions[0]
      case Publish(read) => Alone(published + [read], c, actions[1..])
      case Recv(_) => Alone(published, if c.next <= |published| then Take(published, c) else c, actions[1..])
  }

  /** Isolation: a consumer's history is what it would be with no other consumer at all. */
  lemma {:induction false} ConsumersAreIsolated(f: Fanout, actions: seq<Action>, i: nat)
    requires Inv(f) && Possible(f, actions) && i < |f.consumers|
    ensures Run(f, actions).consumers[i] == Alone(f.published, f.consumers[i], For(i, actions))
    decreases |actions|
  {
    if actions != [] {
      var a, rest := actions[0], For(i, actions[1..]);
      StepKeeps(f, a);
      ConsumersAreIsolated(Step(f, a), actions[1..], i);
      if a.Publish? || a == Recv(i) {
        assert For(i, actions) == [a] + rest && ([a] + rest)[1..] == rest;
      } else {
        assert For(i, actions) == rest;
      }
    }
  }
}
