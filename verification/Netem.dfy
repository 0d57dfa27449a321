/**
  Shaping the netem middlebox, after `benchmarks/lib/netem.py`: claim it by creating
  the ifb device, refuse it if its engine interface already carries a qdisc, install
  the shape command by command, and tear down exactly what the shape installs.

  A command either takes effect or not; the runner may also raise, when the command
  timed out, whether or not it took effect.
 */
module Netem {
  import opened Options

  datatype Shape = Shape(latency: nat, jitter: nat, loss: nat, bottleneck: nat, policer: nat)

  function UploadDelay(shape: Shape): nat { shape.latency / 2 + shape.latency % 2 }
  function DownloadDelay(shape: Shape): nat { shape.latency / 2 }
  function UploadJitter(shape: Shape): nat { shape.jitter / 2 + shape.jitter % 2 }
  function DownloadJitter(shape: Shape): nat { shape.jitter / 2 }

  /** Whether each direction gets a netem qdisc: on its impairments alone. */
  predicate UploadImpaired(shape: Shape) {
    UploadDelay(shape) > 0 || UploadJitter(shape) > 0 || shape.loss > 0
  }

  predicate DownloadImpaired(shape: Shape) {
    DownloadDelay(shape) > 0 || DownloadJitter(shape) > 0
  }

  /** The two directions add up to the round trip and the jitter asked for; a round trip of two
      milliseconds or more delays both. */
  lemma DirectionsAddUp(shape: Shape)
    ensures UploadDelay(shape) + DownloadDelay(shape) == shape.latency
        && UploadJitter(shape) + DownloadJitter(shape) == shape.jitter
    ensures DownloadImpaired(shape) ==> UploadImpaired(shape)
    ensures shape.latency >= 2 || shape.jitter >= 2 <==> DownloadImpaired(shape)
    ensures shape.latency > 0 || shape.jitter > 0 || shape.loss > 0 <==> UploadImpaired(shape)
  {
  }

  // ---------------------------------------------------------------- the middlebox

  /** `Alien` is a qdisc this driver does not install, by the kind `tc` shows for it. */
  datatype Qdisc = Delay(delay: nat, jitter: nat, loss: nat) | Bottleneck(rate: nat) | Alien(kind: string)

  datatype Device = Device(up: bool, root: Option<Qdisc>, child: Option<Qdisc>)

  /** The engine-facing interface; no root means the kernel's own default, and the ingress hook
      may carry a filter, with the rate it polices to. */
  datatype Engine = Engine(root: Option<Qdisc>, ingress: Option<Option<nat>>)

  datatype Box = Box(ifb: Option<Device>, engine: Engine)

  datatype Command =
    | AddIfb
    | UpIfb
    | AddIfbRoot(q: Qdisc)
    | AddIfbChild(q: Qdisc)
    | AddIngress
    | AddFilter(policer: nat)
    | AddEngineRoot(q: Qdisc)
    | DelEngineRoot
    | DelIngress
    | DelIfbRoot
    | DelIfb

  /** Whether the kernel accepts a command; removing what is absent counts as done. */
  predicate Accepts(b: Box, c: Command) {
    match c
    case AddIfb => b.ifb.None?
    case UpIfb => b.ifb.Some?
    case AddIfbRoot(_) => b.ifb.Some? && b.ifb.value.root.None?
    case AddIfbChild(_) => b.ifb.Some? && b.ifb.value.root.Some? && b.ifb.value.child.None?
    case AddIngress => b.engine.ingress.None?
    case AddFilter(_) => b.engine.ingress == Some(None)
    case AddEngineRoot(_) => b.engine.root.None?
    case _ => true
  }

  function Effect(b: Box, c: Command): Box
    requires Accepts(b, c)
  {
    match c
    case AddIfb => b.(ifb := Some(Device(false, None, None)))
    case UpIfb => b.(ifb := Some(b.ifb.value.(up := true)))
    case AddIfbRoot(q) => b.(ifb := Some(b.ifb.value.(root := Some(q))))
    case AddIfbChild(q) => b.(ifb := Some(b.ifb.value.(child := Some(q))))
    case AddIngress => b.(engine := b.engine.(ingress := Some(None)))
    case AddFilter(policer) => b.(engine := b.engine.(ingress := Some(Some(policer))))
    case AddEngineRoot(q) => b.(engine := b.engine.(root := Some(q)))
    case DelEngineRoot => b.(engine := b.engine.(root := None))
    case DelIngress => b.(engine := b.engine.(ingress := None))
    case DelIfbRoot => if b.ifb.None? then b else b.(ifb := Some(b.ifb.value.(root := None, child := None)))
    case DelIfb => b.(ifb := None)
  }

  // ---------------------------------------------------------------- the two programs

  function UploadNetem(shape: Shape): Qdisc {
    Delay(UploadDelay(shape), UploadJitter(shape), shape.loss)
  }

  function DownloadNetem(shape: Shape): Qdisc {
    Delay(DownloadDelay(shape), DownloadJitter(shape), 0)
  }

  function UploadProgram(shape: Shape): seq<Command> {
    if UploadImpaired(shape)
    then [AddIfbRoot(UploadNetem(shape))]
         + if shape.bottleneck > 0 then [AddIfbChild(Bottleneck(shape.bottleneck))] else []
    else if shape.bottleneck > 0 then [AddIfbRoot(Bottleneck(shape.bottleneck))] else []
  }

  function DownloadProgram(shape: Shape): seq<Command> {
    if DownloadImpaired(shape) then [AddEngineRoot(DownloadNetem(shape))] else []
  }

  /** `tc_program` without the claim it starts with. */
  function Program(shape: Shape): seq<Command> {
    [UpIfb] + UploadProgram(shape) + [AddIngress, AddFilter(shape.policer)] + DownloadProgram(shape)
  }

  function TeardownProgram(shape: Shape): seq<Command> {
    (if DownloadImpaired(shape) then [DelEngineRoot] else [])
    + [DelIngress]
    + (if shape.bottleneck > 0 || UploadImpaired(shape) then [DelIfbRoot] else [])
    + [DelIfb]
  }

  // ---------------------------------------------------------------- running commands

  /** What became of a command: run to its end, failed without effect, or never heard of again. */
  datatype Answer = Runs | Fails | Raises(applied: bool)

  datatype Status = Zero | NonZero | Raised

  function Executed(b: Box, c: Command, a: Answer): (Box, Status) {
    match a
    case Runs => if Accepts(b, c) then (Effect(b, c), Zero) else (b, NonZero)
    case Fails => (b, NonZero)
    case Raises(applied) => (if applied && Accepts(b, c) then Effect(b, c) else b, Raised)
  }

  /** The commands from `i` up to the first that does not succeed, and the last one's status. */
  function Installed(b: Box, cs: seq<Command>, answers: seq<Answer>, i: nat): (Box, Status)
    requires i <= |cs| == |answers|
    decreases |cs| - i
  {
    if i == |cs| then (b, Zero)
    else
      var (next, status) := Executed(b, cs[i], answers[i]);
      if status.Zero? then Installed(next, cs, answers, i + 1) else (next, status)
  }

  /** Every command from `i`, whatever the one before it did, and those that were not confirmed. */
  function TornDown(b: Box, cs: seq<Command>, answers: seq<Answer>, i: nat): (Box, seq<Command>)
    requires i <= |cs| == |answers|
    decreases |cs| - i
  {
    if i == |cs| then (b, [])
    else
      var (next, status) := Executed(b, cs[i], answers[i]);
      var (last, stayed) := TornDown(next, cs, answers, i + 1);
      (last, if status.Zero? then stayed else [cs[i]] + stayed)
  }

  /** The kinds `_installed_qdiscs` takes for the kernel's default. */
  predicate Shown(q: Qdisc) {
    q.Alien? ==> q.kind !in ["noqueue", "pfifo_fast", "mq", "fq_codel"]
  }

  predicate Visible(e: Engine) {
    e.ingress.Some? || (e.root.Some? && Shown(e.root.value))
  }

  datatype Outcome = Applied | Refused | Broken

  /** The fate of each command an `apply` issues: naming the engine's interface, which fails unless there is
      exactly one candidate, then the claim, the probe, the release of a claim on a shaped box, the program
      and the rollback. */
  datatype Fates = Fates(
    resolve: Answer,
    claim: Answer,
    probe: Answer,
    release: Answer,
    installs: seq<Answer>,
    removes: seq<Answer>)

  predicate ForShape(shape: Shape, fates: Fates) {
    |fates.installs| == |Program(shape)| && |fates.removes| == |TeardownProgram(shape)|
  }

  /** `apply`, given the fate of each command it issues. */
  function ApplyTo(shape: Shape, b: Box, fates: Fates): (Box, Outcome)
    requires ForShape(shape, fates)
  {
    var (claimed, status) := Executed(b, AddIfb, fates.claim);
    if fates.resolve.Raises? then (b, Broken)
    else if fates.resolve.Fails? then (b, Refused)
    else if status.Raised? then (claimed, Broken)
    else if status.NonZero? then (claimed, Refused)
    else if fates.probe.Raises? then (claimed, Broken)
    else if fates.probe.Runs? && Visible(b.engine) then
      var (released, status) := Executed(claimed, DelIfb, fates.release);
      (released, if status.Raised? then Broken else Refused)
    else
      var (shaped, status) := Installed(claimed, Program(shape), fates.installs, 0);
      match status
      case Zero => (shaped, Applied)
      case Raised => (shaped, Broken)
      case NonZero => (TornDown(shaped, TeardownProgram(shape), fates.removes, 0).0, Refused)
  }

  class Middlebox {
    var box: Box

    method Execute(c: Command, a: Answer) returns (status: Status)
      modifies this
      ensures (box, status) == Executed(old(box), c, a)
    {
      status := if a.Raises? then Raised else if a.Runs? && Accepts(box, c) then Zero else NonZero;
      if Accepts(box, c) && (a.Runs? || (a.Raises? && a.applied)) {
        box := Effect(box, c);
      }
    }

    /** Attempts every command, whatever the one before it did. */
    method AttemptAll(cs: seq<Command>, answers: seq<Answer>) returns (stayed: seq<Command>)
      requires |answers| == |cs|
      modifies this
      ensures box == TornDown(old(box), cs, answers, 0).0 && stayed == TornDown(old(box), cs, answers, 0).1
    {
      stayed := [];
      var i := 0;
      while i < |cs|
        invariant 0 <= i <= |cs|
        invariant TornDown(old(box), cs, answers, 0).0 == TornDown(box, cs, answers, i).0
        invariant TornDown(old(box), cs, answers, 0).1 == stayed + TornDown(box, cs, answers, i).1
      {
        ghost var rest := TornDown(Executed(box, cs[i], answers[i]).0, cs, answers, i + 1).1;
        assert stayed + ([cs[i]] + rest) == stayed + [cs[i]] + rest;
        var status := Execute(cs[i], answers[i]);
        if !status.Zero? {
          stayed := stayed + [cs[i]];
        }
        i := i + 1;
      }
    }

    /** `_teardown`. */
    method Teardown(shape: Shape, removes: seq<Answer>) returns (stayed: seq<Command>)
      requires |removes| == |TeardownProgram(shape)|
      modifies this
      ensures (box, stayed) == TornDown(old(box), TeardownProgram(shape), removes, 0)
    {
      stayed := AttemptAll(TeardownProgram(shape), removes);
    }

    /** The installing loop of `apply`. */
    method Install(shape: Shape, installs: seq<Answer>) returns (status: Status)
      requires |installs| == |Program(shape)|
      modifies this
      ensures (box, status) == Installed(old(box), Program(shape), installs, 0)
    {
      var cs := Program(shape);
      var i := 0;
      while i < |cs|
        invariant 0 <= i <= |cs|
        invariant Installed(old(box), cs, installs, 0) == Installed(box, cs, installs, i)
      {
        status := Execute(cs[i], installs[i]);
        if !status.Zero? {
          return;
        }
        i := i + 1;
      }
      status := Zero;
    }

    method Apply(shape: Shape, fates: Fates) returns (outcome: Outcome)
      requires ForShape(shape, fates)
      modifies this
      ensures (box, outcome) == ApplyTo(shape, old(box), fates)
    {
      if fates.resolve.Raises? {
        return Broken;
      }
      if fates.resolve.Fails? {
        return Refused;
      }
      var status := Execute(AddIfb, fates.claim);
      if status.Raised? {
        return Broken;
      }
      if status.NonZero? {
        return Refused;
      }
      if fates.probe.Raises? {
        return Broken;
      }
      if fates.probe.Runs? && Visible(box.engine) {
        status := Execute(DelIfb, fates.release);
        return if status.Raised? then Broken else Refused;
      }
      status := Install(shape, fates.installs);
      if status.Raised? {
        return Broken;
      }
      if status.NonZero? {
        var _ := Teardown(shape, fates.removes);
        return Refused;
      }
      return Applied;
    }
  }

  // ---------------------------------------------------------------- what a finished install is

  /** The box with the shape on it, told without the program that puts it there. */
  function Shaped(shape: Shape, b: Box): Box {
    var upload := UploadImpaired(shape);
    var tbf := if shape.bottleneck > 0 then Some(Bottleneck(shape.bottleneck)) else None;
    Box(Some(Device(true, if upload then Some(UploadNetem(shape)) else tbf, if upload then tbf else None)),
        Engine(if DownloadImpaired(shape) then Some(DownloadNetem(shape)) else b.engine.root,
               Some(Some(shape.policer))))
  }

  /** Nothing sits where this shape's teardown would remove it. */
  predicate Free(shape: Shape, e: Engine) {
    e.ingress.None? && (DownloadImpaired(shape) ==> e.root.None?)
  }

  predicate AllRun(answers: seq<Answer>) {
    forall i :: 0 <= i < |answers| ==> answers[i].Runs?
  }

  /** The box after every one of the commands, if the kernel accepts them all. */
  function Ran(b: Box, cs: seq<Command>): Option<Box>
    decreases |cs|
  {
    if cs == [] then Some(b) else if Accepts(b, cs[0]) then Ran(Effect(b, cs[0]), cs[1..]) else None
  }

  lemma {:induction false} RanConcat(b: Box, xs: seq<Command>, ys: seq<Command>)
    ensures Ran(b, xs + ys) == if Ran(b, xs).Some? then Ran(Ran(b, xs).value, ys) else None
    decreases |xs|
  {
    if xs == [] {
      assert xs + ys == ys;
    } else {
      assert (xs + ys)[1..] == xs[1..] + ys;
      if Accepts(b, xs[0]) {
        RanConcat(Effect(b, xs[0]), xs[1..], ys);
      }
    }
  }

  lemma {:induction false} InstalledRan(b: Box, cs: seq<Command>, answers: seq<Answer>, i: nat)
    requires i <= |cs| == |answers| && Installed(b, cs, answers, i).1.Zero?
    ensures Ran(b, cs[i..]) == Some(Installed(b, cs, answers, i).0)
    decreases |cs| - i
  {
    if i < |cs| {
      assert cs[i..][1..] == cs[i + 1..];
      InstalledRan(Executed(b, cs[i], answers[i]).0, cs, answers, i + 1);
    }
  }

  lemma UploadRan(shape: Shape, b: Box)
    requires b.ifb == Some(Device(true, None, None))
    ensures Ran(b, UploadProgram(shape)) == Some(b.(ifb := Shaped(shape, b).ifb))
  {
    if UploadImpaired(shape) && shape.bottleneck > 0 {
      var tbf := AddIfbChild(Bottleneck(shape.bottleneck));
      var mid := Effect(b, AddIfbRoot(UploadNetem(shape)));
      assert Ran(mid, [tbf]) == Some(Effect(mid, tbf));
      assert UploadProgram(shape)[1..] == [tbf];
    }
  }

  lemma HooksRan(shape: Shape, b: Box)
    ensures b.engine.ingress.None? ==>
              Ran(b, [AddIngress, AddFilter(shape.policer)])
                  == Some(b.(engine := b.engine.(ingress := Some(Some(shape.policer)))))
    ensures b.engine.ingress.Some? ==> Ran(b, [AddIngress, AddFilter(shape.policer)]) == None
  {
    var filter := AddFilter(shape.policer);
    assert [AddIngress, filter][1..] == [filter];
    if b.engine.ingress.None? {
      var mid := Effect(b, AddIngress);
      assert Ran(mid, [filter]) == Some(Effect(mid, filter));
    }
  }

  /** A claimed box the program runs on to its end is the shaped box, and was free for it. */
  lemma ProgramShapes(shape: Shape, b: Box)
    requires b.ifb == Some(Device(false, None, None))
    ensures Ran(b, Program(shape)).Some? <==> Free(shape, b.engine)
    ensures Ran(b, Program(shape)).Some? ==> Ran(b, Program(shape)).value == Shaped(shape, b)
  {
    var hooks := [AddIngress, AddFilter(shape.policer)];
    var up := Effect(b, UpIfb);
    assert Ran(b, [UpIfb]) == Some(up);
    var upload := up.(ifb := Shaped(shape, b).ifb);
    UploadRan(shape, up);
    RanConcat(b, [UpIfb], UploadProgram(shape));
    HooksRan(shape, upload);
    RanConcat(b, [UpIfb] + UploadProgram(shape), hooks);
    RanConcat(b, [UpIfb] + UploadProgram(shape) + hooks, DownloadProgram(shape));
  }

  /** An apply that succeeds found the box unclaimed and free, and left exactly its shape on it. */
  lemma AppliedIsShaped(shape: Shape, b: Box, fates: Fates)
    requires ForShape(shape, fates)
    ensures var (after, outcome) := ApplyTo(shape, b, fates);
            outcome.Applied? ==> b.ifb.None? && Free(shape, b.engine) && after == Shaped(shape, b)
  {
    if ApplyTo(shape, b, fates).1.Applied? {
      var claimed := Effect(b, AddIfb);
      InstalledRan(claimed, Program(shape), fates.installs, 0);
      assert Program(shape)[0..] == Program(shape);
      ProgramShapes(shape, claimed);
    }
  }

  function DelayIn(q: Option<Qdisc>): nat {
    if q.Some? && q.value.Delay? then q.value.delay else 0
  }

  function JitterIn(q: Option<Qdisc>): nat {
    if q.Some? && q.value.Delay? then q.value.jitter else 0
  }

  function LossIn(q: Option<Qdisc>): nat {
    if q.Some? && q.value.Delay? then q.value.loss else 0
  }

  function RateIn(q: Option<Qdisc>): nat {
    if q.Some? && q.value.Bottleneck? then q.value.rate else 0
  }

  /** What a successful apply on a plain interface imposes, read off the box: over both directions the whole
      delay and jitter asked for, the loss and the bottleneck on the way up and neither on the way down, the
      policer on the hook, on a device that is up. */
  lemma AppliedImposesTheShape(shape: Shape, b: Box, fates: Fates)
    requires ForShape(shape, fates) && b.engine.root.None?
    ensures var (after, outcome) := ApplyTo(shape, b, fates);
            outcome.Applied? ==>
              && after.ifb.Some? && after.ifb.value.up && after.engine.ingress == Some(Some(shape.policer))
              && var up, inner, down := after.ifb.value.root, after.ifb.value.child, after.engine.root;
                 && DelayIn(up) + DelayIn(down) == shape.latency && 0 <= DelayIn(up) - DelayIn(down) <= 1
                 && JitterIn(up) + JitterIn(down) == shape.jitter && 0 <= JitterIn(up) - JitterIn(down) <= 1
                 && LossIn(up) == shape.loss && LossIn(down) == 0
                 && RateIn(up) + RateIn(inner) == shape.bottleneck && RateIn(down) == 0
  {
    AppliedIsShaped(shape, b, fates);
    DirectionsAddUp(shape);
  }

  // ---------------------------------------------------------------- rolling back

  /** What the engine interface's root can be while the shape is being put on the box. */
  predicate RootIsOurs(shape: Shape, before: Box, now: Box) {
    now.engine.root == before.engine.root || (DownloadImpaired(shape) && before.engine.root.None?)
  }

  predicate Installs(shape: Shape, c: Command) {
    c.UpIfb? || c.AddIfbRoot? || c.AddIfbChild? || c.AddIngress? || c.AddFilter?
        || (c.AddEngineRoot? && DownloadImpaired(shape))
  }

  lemma ProgramOnlyInstalls(shape: Shape)
    ensures forall i :: 0 <= i < |Program(shape)| ==> Installs(shape, Program(shape)[i])
  {
  }

  lemma {:induction false} InstallLeavesRoot(shape: Shape, before: Box, now: Box, cs: seq<Command>,
                                             answers: seq<Answer>, i: nat)
    requires i <= |cs| == |answers| && RootIsOurs(shape, before, now)
    requires forall k :: 0 <= k < |cs| ==> Installs(shape, cs[k])
    ensures RootIsOurs(shape, before, Installed(now, cs, answers, i).0)
    decreases |cs| - i
  {
    if i < |cs| {
      assert Installs(shape, cs[i]);
      var next := Executed(now, cs[i], answers[i]).0;
      assert RootIsOurs(shape, before, next);
      InstallLeavesRoot(shape, before, next, cs, answers, i + 1);
    }
  }

  predicate Removal(c: Command) {
    c.DelEngineRoot? || c.DelIngress? || c.DelIfbRoot? || c.DelIfb?
  }

  lemma {:induction false} TornDownRan(b: Box, cs: seq<Command>, answers: seq<Answer>, i: nat)
    requires i <= |cs| == |answers| && AllRun(answers) && forall k :: 0 <= k < |cs| ==> Removal(cs[k])
    ensures Ran(b, cs[i..]).Some? && TornDown(b, cs, answers, i) == (Ran(b, cs[i..]).value, [])
    decreases |cs| - i
  {
    if i < |cs| {
      assert cs[i..][1..] == cs[i + 1..];
      assert Removal(cs[i]) && answers[i].Runs?;
      TornDownRan(Effect(b, cs[i]), cs, answers, i + 1);
    }
  }

  lemma TeardownRan(shape: Shape, b: Box)
    ensures Ran(b, TeardownProgram(shape))
        == Some(Box(None, Engine(if DownloadImpaired(shape) then None else b.engine.root, None)))
  {
    var root := if DownloadImpaired(shape) then [DelEngineRoot] else [];
    var ifb := if shape.bottleneck > 0 || UploadImpaired(shape) then [DelIfbRoot] else [];
    RanConcat(b, root, [DelIngress]);
    RanConcat(b, root + [DelIngress], ifb);
    RanConcat(b, root + [DelIngress] + ifb, [DelIfb]);
  }

  lemma TeardownOnlyRemoves(shape: Shape)
    ensures forall i :: 0 <= i < |TeardownProgram(shape)| ==> Removal(TeardownProgram(shape)[i])
  {
  }

  /** A whole teardown removes the claim, the ingress hook, and the root if the shape has one. */
  lemma TeardownRemoves(shape: Shape, b: Box, removes: seq<Answer>)
    requires |removes| == |TeardownProgram(shape)| && AllRun(removes)
    ensures TornDown(b, TeardownProgram(shape), removes, 0)
         == (Box(None, Engine(if DownloadImpaired(shape) then None else b.engine.root, None)), [])
  {
    TeardownRan(shape, b);
    TeardownOnlyRemoves(shape);
    TornDownRan(b, TeardownProgram(shape), removes, 0);
    assert TeardownProgram(shape)[0..] == TeardownProgram(shape);
  }

  lemma {:induction false} OtherRemovalsKeepTheClaim(b: Box, cs: seq<Command>, answers: seq<Answer>, i: nat)
    requires i <= |cs| == |answers| && b.ifb.Some?
    requires forall k :: 0 <= k < |cs| ==> Removal(cs[k]) && !cs[k].DelIfb?
    ensures TornDown(b, cs, answers, i).0.ifb.Some?
    decreases |cs| - i
  {
    if i < |cs| {
      OtherRemovalsKeepTheClaim(Executed(b, cs[i], answers[i]).0, cs, answers, i + 1);
    }
  }

  /** A teardown cut short anywhere before its last command, whatever became of the others, leaves
      the box claimed: nobody else can install over what is still there. */
  lemma ClaimIsReleasedLast(shape: Shape, b: Box, removes: seq<Answer>, k: nat)
    requires b.ifb.Some? && k < |TeardownProgram(shape)| && |removes| == k
    ensures TornDown(b, TeardownProgram(shape)[..k], removes, 0).0.ifb.Some?
  {
    TeardownOnlyRemoves(shape);
    OtherRemovalsKeepTheClaim(b, TeardownProgram(shape)[..k], removes, 0);
  }

  /** Clearing a shape that was applied gives the box back as it was found. */
  lemma ClearUndoesApply(shape: Shape, b: Box, fates: Fates, clears: seq<Answer>)
    requires ForShape(shape, fates) && |clears| == |TeardownProgram(shape)| && AllRun(clears)
    ensures var (after, outcome) := ApplyTo(shape, b, fates);
            outcome.Applied? ==> TornDown(after, TeardownProgram(shape), clears, 0) == (b, [])
  {
    AppliedIsShaped(shape, b, fates);
    TeardownRemoves(shape, ApplyTo(shape, b, fates).0, clears);
  }

  /** An apply that goes on to install: its interface has a name, its claim held and its probe saw nothing. */
  predicate Installing(b: Box, fates: Fates) {
    && fates.resolve.Runs? && b.ifb.None? && fates.claim.Runs?
    && (fates.probe.Fails? || (fates.probe.Runs? && !Visible(b.engine)))
  }

  lemma {:induction false} InstalledAllRun(b: Box, cs: seq<Command>, answers: seq<Answer>, i: nat)
    requires i <= |cs| == |answers| && AllRun(answers)
    ensures Installed(b, cs, answers, i).1 == if Ran(b, cs[i..]).Some? then Zero else NonZero
    decreases |cs| - i
  {
    if i < |cs| {
      assert cs[i..][1..] == cs[i + 1..];
      assert answers[i].Runs?;
      InstalledAllRun(Executed(b, cs[i], answers[i]).0, cs, answers, i + 1);
    }
  }

  lemma {:induction false} InstalledOnlyIfAllRan(b: Box, cs: seq<Command>, answers: seq<Answer>, i: nat)
    requires i <= |cs| == |answers| && Installed(b, cs, answers, i).1.Zero?
    ensures forall k :: i <= k < |cs| ==> answers[k].Runs?
    decreases |cs| - i
  {
    if i < |cs| {
      InstalledOnlyIfAllRan(Executed(b, cs[i], answers[i]).0, cs, answers, i + 1);
    }
  }

  predicate LooksDefault(q: Qdisc) {
    q.Alien? && (q.kind == "noqueue" || q.kind == "pfifo_fast" || q.kind == "mq" || q.kind == "fq_codel")
  }

  /** An apply succeeds exactly when the interface has one name, the box is unclaimed and the claim runs, the
      probe fails or finds no root qdisc but one of a default kind, nothing sits where the shape goes, and
      every command runs. */
  lemma AppliedExactlyWhen(shape: Shape, b: Box, fates: Fates)
    requires ForShape(shape, fates)
    ensures ApplyTo(shape, b, fates).1.Applied?
       <==> && fates.resolve.Runs? && b.ifb.None? && fates.claim.Runs?
            && (fates.probe.Fails?
                || (fates.probe.Runs? && (b.engine.root.None? || LooksDefault(b.engine.root.value))))
            && b.engine.ingress.None? && (shape.latency >= 2 || shape.jitter >= 2 ==> b.engine.root.None?)
            && AllRun(fates.installs)
  {
    DirectionsAddUp(shape);
    if Installing(b, fates) {
      var claimed := Effect(b, AddIfb);
      ProgramShapes(shape, claimed);
      assert Program(shape)[0..] == Program(shape);
      if AllRun(fates.installs) {
        InstalledAllRun(claimed, Program(shape), fates.installs, 0);
      }
      if Installed(claimed, Program(shape), fates.installs, 0).1.Zero? {
        InstalledOnlyIfAllRan(claimed, Program(shape), fates.installs, 0);
        AppliedIsShaped(shape, b, fates);
      }
    }
  }

  /** A refused apply leaves the box as it found it exactly when it never reached the install, or
      nothing sat where its teardown removes: wherever it stopped, and whatever was installed. */
  lemma RefusalRestoresExactlyWhen(shape: Shape, b: Box, fates: Fates)
    requires ForShape(shape, fates) && fates.release.Runs? && AllRun(fates.removes)
    ensures var (after, outcome) := ApplyTo(shape, b, fates);
            outcome.Refused? ==> (after == b <==> !Installing(b, fates) || Free(shape, b.engine))
  {
    if Installing(b, fates) {
      var claimed := Effect(b, AddIfb);
      ProgramOnlyInstalls(shape);
      InstallLeavesRoot(shape, b, claimed, Program(shape), fates.installs, 0);
      TeardownRemoves(shape, Installed(claimed, Program(shape), fates.installs, 0).0, fates.removes);
    }
  }

  /** So, with a working probe, only a root qdisc of a default-looking kind can be lost. */
  lemma RefusalWithAWorkingProbe(shape: Shape, b: Box, fates: Fates)
    requires ForShape(shape, fates) && fates.release.Runs? && AllRun(fates.removes) && fates.probe.Runs?
    requires b.engine.root.Some? ==> Shown(b.engine.root.value)
    ensures var (after, outcome) := ApplyTo(shape, b, fates); outcome.Refused? ==> after == b
  {
    RefusalRestoresExactlyWhen(shape, b, fates);
  }

  /** A probe that fails is read as a clean interface: an ingress hook already there, another run's
      or an operator's, then stops the install, and the rollback takes it away. */
  lemma FailedProbeLosesAnIngressHook(shape: Shape, b: Box, fates: Fates)
    requires ForShape(shape, fates) && fates.resolve.Runs? && fates.claim.Runs? && fates.probe.Fails?
    requires AllRun(fates.installs) && AllRun(fates.removes) && b.ifb.None? && b.engine.ingress.Some?
    ensures var (after, outcome) := ApplyTo(shape, b, fates);
            outcome.Refused? && after.engine.ingress.None?
  {
    var claimed := Effect(b, AddIfb);
    ProgramShapes(shape, claimed);
    InstalledAllRun(claimed, Program(shape), fates.installs, 0);
    assert Program(shape)[0..] == Program(shape);
    TeardownRemoves(shape, Installed(claimed, Program(shape), fates.installs, 0).0, fates.removes);
  }

  /** A runner that raises is not rolled back: the claim stays, if it was made, so that the next
      apply is refused without touching the box. */
  lemma BrokenApplyStaysClaimed(shape: Shape, b: Box, fates: Fates)
    requires ForShape(shape, fates)
    ensures var (after, outcome) := ApplyTo(shape, b, fates);
            outcome.Broken? ==>
              after == b || ApplyTo(shape, after, fates.(resolve := Runs, claim := Runs)) == (after, Refused)
  {
    if b.ifb.None? {
      ProgramKeepsClaim(Effect(b, AddIfb), Program(shape), fates.installs, 0, shape);
    }
  }

  lemma {:induction false} ProgramKeepsClaim(b: Box, cs: seq<Command>, answers: seq<Answer>, i: nat, shape: Shape)
    requires i <= |cs| == |answers| && b.ifb.Some? && cs == Program(shape)
    ensures Installed(b, cs, answers, i).0.ifb.Some?
    decreases |cs| - i
  {
    if i < |cs| {
      ProgramOnlyInstalls(shape);
      assert Installs(shape, cs[i]);
      ProgramKeepsClaim(Executed(b, cs[i], answers[i]).0, cs, answers, i + 1, shape);
    }
  }
}
