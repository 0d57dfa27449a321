/**
  Shaping a benchmark's pipe through toxiproxy, after `benchmarks/lib/shaping.py`:
  a run claims the proxy with a lock toxic, refuses it if anything else shapes it,
  installs its own toxics, measures, and removes them by name, the lock last.

  Several runs interleave request by request on one proxy; any request may be lost
  before or after the server applied it, and a run may stop dead at any point.
 */
module Shaping {
  // ---------------------------------------------------------------- what a shape installs

  datatype Kind = BandwidthUp | BandwidthDown | LatencyUp | LatencyDown

  const KINDS: seq<Kind> := [BandwidthUp, BandwidthDown, LatencyUp, LatencyDown]

  datatype Shape = Shape(token: string, bandwidth: nat, latency: nat, jitter: nat)

  datatype Toxic = Toxic(rate: nat, latency: nat, jitter: nat, enabled: bool)

  const LOCK_TOXIC: Toxic := Toxic(0, 0, 0, true)

  /** The kinds a shape installs, in the order it installs them. */
  function Order(shape: Shape): seq<Kind> {
    (if shape.bandwidth > 0 then [BandwidthUp, BandwidthDown] else [])
    + (if shape.latency > 0 then [LatencyUp, LatencyDown] else [])
  }

  function SpecOf(shape: Shape, kind: Kind): Toxic {
    match kind
    case BandwidthUp => Toxic(shape.bandwidth, 0, 0, true)
    case BandwidthDown => Toxic(shape.bandwidth, 0, 0, true)
    case LatencyUp => Toxic(0, shape.latency / 2 + shape.latency % 2, shape.jitter / 2 + shape.jitter % 2, true)
    case LatencyDown => Toxic(0, shape.latency / 2, shape.jitter / 2, true)
  }

  /** The two directions' delays and jitters add up to the round trip asked for, the odd unit upstream. */
  lemma DirectionsAddUp(shape: Shape)
    ensures SpecOf(shape, LatencyUp).latency + SpecOf(shape, LatencyDown).latency == shape.latency
    ensures SpecOf(shape, LatencyUp).jitter + SpecOf(shape, LatencyDown).jitter == shape.jitter
    ensures 0 <= SpecOf(shape, LatencyUp).latency - SpecOf(shape, LatencyDown).latency <= 1
    ensures 0 <= SpecOf(shape, LatencyUp).jitter - SpecOf(shape, LatencyDown).jitter <= 1
  {
  }

  /** A shape installs, once each, the bandwidth toxics if it limits bandwidth and the latency toxics if it
      delays; each bandwidth toxic carries the rate asked for, and all are enabled. */
  lemma ShapeInstallsWhatItAsks(shape: Shape, kind: Kind)
    ensures kind in Order(shape)
       <==> if kind.BandwidthUp? || kind.BandwidthDown? then shape.bandwidth > 0 else shape.latency > 0
    ensures multiset(Order(shape))[kind] <= 1 && SpecOf(shape, kind).enabled
    ensures SpecOf(shape, kind).rate == if kind.BandwidthUp? || kind.BandwidthDown? then shape.bandwidth else 0
  {
  }

  // ---------------------------------------------------------------- names

  datatype Name = Lock | Own(token: string, kind: Kind) | Other(text: string)

  function KindText(kind: Kind): string {
    match kind
    case BandwidthUp => "bandwidth_up"
    case BandwidthDown => "bandwidth_down"
    case LatencyUp => "latency_up"
    case LatencyDown => "latency_down"
  }

  function Text(name: Name): string {
    match name
    case Lock => "vtop_lock"
    case Own(token, kind) => "vtop_" + token + "_" + KindText(kind)
    case Other(text) => text
  }

  lemma KindTextsDiffer(a: Kind, b: Kind)
    requires KindText(a) == KindText(b)
    ensures a == b
  {
    var s, t := KindText(a), KindText(b);
    assert s[0] == t[0] && |s| == |t|;
  }

  /** With tokens of one width, two runs' toxics never share a name, and none is named like the lock. */
  lemma NamesDoNotClash(t: string, a: Kind, u: string, b: Kind)
    requires |t| == |u|
    ensures Text(Own(t, a)) == Text(Own(u, b)) ==> t == u && a == b
    ensures Text(Own(t, a)) != Text(Lock)
  {
    var x, y := Text(Own(t, a)), Text(Own(u, b));
    assert |x| > |Text(Lock)| by { assert |KindText(a)| >= 10; }
    if x == y {
      assert x[5..5 + |t|] == t && y[5..5 + |u|] == u;
      assert x[6 + |t|..] == KindText(a) && y[6 + |u|..] == KindText(b);
      KindTextsDiffer(a, b);
    }
  }

  // ---------------------------------------------------------------- requests

  type Toxics = map<Name, Toxic>

  /** What became of a request: answered, or no usable answer although it was, or was not, applied. */
  datatype Fate = Answered | AppliedUnseen | Lost

  /** A toxic is created only under a name that is free. */
  function Posted(proxy: Toxics, name: Name, toxic: Toxic, fate: Fate): Toxics {
    if name in proxy || fate.Lost? then proxy else proxy[name := toxic]
  }

  function PostAccepted(proxy: Toxics, name: Name, fate: Fate): bool {
    name !in proxy && fate.Answered?
  }

  function Deleted(proxy: Toxics, name: Name, fate: Fate): Toxics {
    if fate.Lost? then proxy else proxy - {name}
  }

  /** Whether anything but the lock shapes the pipe. */
  predicate Bare(proxy: Toxics) {
    forall name :: name in proxy && name != Lock ==> !proxy[name].enabled
  }

  /** The proxy after the removals of `names` met these fates, and which of them were not confirmed. */
  function Cleared(proxy: Toxics, names: seq<Name>, fates: seq<Fate>): (Toxics, seq<Name>)
    requires |fates| == |names|
  {
    if names == [] then (proxy, [])
    else
      var n := |names| - 1;
      var (rest, stayed) := Cleared(proxy, names[..n], fates[..n]);
      (Deleted(rest, names[n], fates[n]), if fates[n].Answered? then stayed else stayed + [names[n]])
  }

  function ClearNames(token: string): seq<Name> {
    [Own(token, BandwidthUp), Own(token, BandwidthDown), Own(token, LatencyUp), Own(token, LatencyDown), Lock]
  }

  class Proxy {
    var toxics: Toxics

    method Post(name: Name, toxic: Toxic, fate: Fate) returns (accepted: bool)
      modifies this
      ensures accepted == PostAccepted(old(toxics), name, fate) && toxics == Posted(old(toxics), name, toxic, fate)
    {
      accepted := false;
      if name !in toxics && !fate.Lost? {
        toxics := toxics[name := toxic];
        accepted := fate.Answered?;
      }
    }

    method Delete(name: Name, fate: Fate) returns (confirmed: bool)
      modifies this
      ensures confirmed == fate.Answered? && toxics == Deleted(old(toxics), name, fate)
    {
      if !fate.Lost? {
        toxics := toxics - {name};
      }
      confirmed := fate.Answered?;
    }

    /** `clear`: every name is tried whatever the one before it did; the unconfirmed ones are returned. */
    method Clear(token: string, fates: seq<Fate>) returns (stayed: seq<Name>)
      requires |fates| == 5
      modifies this
      ensures (toxics, stayed) == Cleared(old(toxics), ClearNames(token), fates)
    {
      var names := ClearNames(token);
      stayed := [];
      var i := 0;
      while i < |names|
        invariant 0 <= i <= |names|
        invariant (toxics, stayed) == Cleared(old(toxics), names[..i], fates[..i])
      {
        assert names[..i + 1][..i] == names[..i] && fates[..i + 1][..i] == fates[..i];
        var confirmed := Delete(names[i], fates[i]);
        if !confirmed {
          stayed := stayed + [names[i]];
        }
        i := i + 1;
      }
      assert names[..5] == names && fates[..5] == fates;
    }

    /** `_check_and_install`; `passes` stands for the checks of the proxy's address and upstream. */
    method CheckAndInstall(shape: Shape, passes: bool, fates: seq<Fate>) returns (ok: bool)
      requires |fates| == 4 && NoneOf(toxics, shape.token)
      modifies this
      ensures ok <==> passes && Bare(old(toxics)) && AllAnswered(fates[..|Order(shape)|])
      ensures ok ==> Installed(toxics, shape, |Order(shape)|)
      ensures Untouched(toxics, old(toxics), shape.token) && SameAt(toxics, old(toxics), Lock)
      ensures !(passes && Bare(old(toxics))) ==> toxics == old(toxics)
    {
      if !passes || !Bare(toxics) {
        return false;
      }
      var i := 0;
      while i < |Order(shape)|
        invariant 0 <= i <= |Order(shape)| && Installed(toxics, shape, i)
        invariant Untouched(toxics, old(toxics), shape.token) && SameAt(toxics, old(toxics), Lock)
        invariant AllAnswered(fates[..i])
      {
        var kind := Order(shape)[i];
        InstallExtends(toxics, shape, i);
        PostKeepsUntouched(toxics, old(toxics), Own(shape.token, kind), SpecOf(shape, kind), fates[i], shape.token);
        ok := Post(Own(shape.token, kind), SpecOf(shape, kind), fates[i]);
        if !ok {
          assert fates[..|Order(shape)|][i] == fates[i];
          return;
        }
        i := i + 1;
      }
      ok := true;
    }

    /** `apply`, with no other run at work: claim, check, install, and clear again on any refusal. */
    method Apply(shape: Shape, claim: Fate, passes: bool, installs: seq<Fate>, clears: seq<Fate>) returns (ok: bool)
      requires |installs| == 4 && |clears| == 5 && NoneOf(toxics, shape.token)
      modifies this
      ensures Lock in old(toxics) ==> !ok && toxics == old(toxics)
      ensures ok <==> && Lock !in old(toxics) && claim.Answered? && passes && Bare(old(toxics))
                      && AllAnswered(installs[..|Order(shape)|])
      ensures ok ==> Installed(toxics, shape, |Order(shape)|)
      ensures ok ==> Lock in toxics && toxics[Lock] == LOCK_TOXIC
      ensures Untouched(toxics, old(toxics), shape.token)
      ensures !ok && claim.Answered? && AllAnswered(clears) ==> toxics == old(toxics)
    {
      ghost var before := toxics;
      ok := Post(Lock, LOCK_TOXIC, claim);
      assert Untouched(toxics, before, shape.token);
      if ok {
        ghost var claimed := toxics;
        ok := CheckAndInstall(shape, passes, installs);
        UntouchedTwice(toxics, claimed, before, shape.token);
        if !ok {
          ghost var shaped := toxics;
          var _ := Clear(shape.token, clears);
          ClearKeepsUntouched(shaped, before, shape.token, clears);
          if AllAnswered(clears) {
            ClearRestores(shaped, before, shape.token, clears);
          }
        }
      }
    }
  }

  predicate AllAnswered(fates: seq<Fate>) {
    forall i :: 0 <= i < |fates| ==> fates[i].Answered?
  }

  lemma UntouchedTwice(p: Toxics, q: Toxics, r: Toxics, token: string)
    requires Untouched(p, q, token) && Untouched(q, r, token)
    ensures Untouched(p, r, token)
  {
    forall n | n != Lock && !Owns(token, n) ensures SameAt(p, r, n) {
      assert SameAt(p, q, n) && SameAt(q, r, n);
    }
  }

  lemma ClearKeepsUntouched(proxy: Toxics, base: Toxics, token: string, fates: seq<Fate>)
    requires |fates| == 5 && Untouched(proxy, base, token)
    ensures Untouched(Cleared(proxy, ClearNames(token), fates).0, base, token)
  {
    forall n | n != Lock && !Owns(token, n) ensures SameAt(Cleared(proxy, ClearNames(token), fates).0, base, n) {
      ClearTriesEveryName(proxy, ClearNames(token), fates, n);
      assert SameAt(proxy, base, n);
    }
  }

  lemma IndexOf(token: string, name: Name) returns (k: nat)
    requires Owns(token, name) || name == Lock
    ensures k < 5 && ClearNames(token)[k] == name
  {
    if name == Lock {
      return 4;
    }
    match name.kind
    case BandwidthUp => k := 0;
    case BandwidthDown => k := 1;
    case LatencyUp => k := 2;
    case LatencyDown => k := 3;
  }

  lemma ClearRestores(proxy: Toxics, base: Toxics, token: string, fates: seq<Fate>)
    requires |fates| == 5 && AllAnswered(fates) && Untouched(proxy, base, token)
    requires NoneOf(base, token) && Lock !in base
    ensures Cleared(proxy, ClearNames(token), fates).0 == base
  {
    var names := ClearNames(token);
    var left := Cleared(proxy, names, fates).0;
    ClearKeepsUntouched(proxy, base, token, fates);
    forall n ensures SameAt(left, base, n) {
      if Owns(token, n) || n == Lock {
        ClearTriesEveryName(proxy, names, fates, n);
        var k := IndexOf(token, n);
        assert names[k] == n && fates[k].Answered?;
      }
    }
    SameEverywhere(left, base);
  }

  /** A name is gone after `clear` if its own removal was applied, whatever became of the others; no
      other name is touched. */
  lemma {:induction false} ClearTriesEveryName(proxy: Toxics, names: seq<Name>, fates: seq<Fate>, name: Name)
    requires |fates| == |names|
    ensures name in Cleared(proxy, names, fates).0
            <==> name in proxy && forall i :: 0 <= i < |names| && names[i] == name ==> fates[i].Lost?
    ensures name in Cleared(proxy, names, fates).0 ==> Cleared(proxy, names, fates).0[name] == proxy[name]
    ensures name in Cleared(proxy, names, fates).1
        <==> exists i :: 0 <= i < |names| && names[i] == name && !fates[i].Answered?
  {
    if names != [] {
      var n := |names| - 1;
      ClearTriesEveryName(proxy, names[..n], fates[..n], name);
      assert forall i :: 0 <= i < n ==> names[..n][i] == names[i] && fates[..n][i] == fates[i];
    }
  }

  // ---------------------------------------------------------------- the runs

  datatype Pc =
    | Idle
    | Checking
    | Installing(done: nat)
    | Measuring
    | Clearing(tried: nat, stayed: bool)
    | Stopped(clean: bool)

  predicate Holding(pc: Pc) {
    pc.Checking? || pc.Installing? || pc.Measuring? || pc.Clearing?
  }

  /** `base` is the proxy as it was when the present claim was granted. */
  datatype State = State(proxy: Toxics, base: Toxics, runs: seq<Pc>)

  datatype Event =
    | Claim(r: nat, fate: Fate)
    | Check(r: nat, passes: bool)
    | Install(r: nat, fate: Fate)
    | Begin(r: nat)
    | End(r: nat)
    | Remove(r: nat, fate: Fate)
    | Die(r: nat)

  /** The name `clear` tries at each step: the four of its own, then the lock. */
  function Doomed(shape: Shape, tried: nat): Name
    requires tried <= 4
  {
    if tried < 4 then Own(shape.token, KINDS[tried]) else Lock
  }

  predicate Enabled(shapes: seq<Shape>, s: State, e: Event) {
    && e.r < |s.runs| == |shapes|
    && match e
       case Claim(r, _) => s.runs[r].Idle?
       case Check(r, _) => s.runs[r].Checking?
       case Install(r, _) => s.runs[r].Installing? && s.runs[r].done < |Order(shapes[r])|
       case Begin(r) => s.runs[r].Installing? && s.runs[r].done == |Order(shapes[r])|
       case End(r) => s.runs[r].Measuring?
       case Remove(r, _) => s.runs[r].Clearing? && s.runs[r].tried <= 4
       case Die(r) => !s.runs[r].Idle?
  }

  ghost function Step(shapes: seq<Shape>, s: State, e: Event): State
    requires Enabled(shapes, s, e)
  {
    match e
    case Claim(r, fate) =>
      var next := if PostAccepted(s.proxy, Lock, fate) then Checking else Stopped(false);
      State(Posted(s.proxy, Lock, LOCK_TOXIC, fate), if next.Checking? then s.proxy else s.base, s.runs[r := next])
    case Check(r, passes) =>
      s.(runs := s.runs[r := if passes && Bare(s.proxy) then Installing(0) else Clearing(0, false)])
    case Install(r, fate) =>
      var kind := Order(shapes[r])[s.runs[r].done];
      var name := Own(shapes[r].token, kind);
      var next := if PostAccepted(s.proxy, name, fate) then Installing(s.runs[r].done + 1) else Clearing(0, false);
      s.(proxy := Posted(s.proxy, name, SpecOf(shapes[r], kind), fate), runs := s.runs[r := next])
    case Begin(r) =>
      s.(runs := s.runs[r := Measuring])
    case End(r) =>
      s.(runs := s.runs[r := Clearing(0, false)])
    case Remove(r, fate) =>
      var Clearing(tried, was) := s.runs[r];
      var stayed := was || !fate.Answered?;
      s.(proxy := Deleted(s.proxy, Doomed(shapes[r], tried), fate),
         runs := s.runs[r := if tried < 4 then Clearing(tried + 1, stayed) else Stopped(!stayed)])
    case Die(r) =>
      s.(runs := s.runs[r := Stopped(false)])
  }

  ghost predicate Run(shapes: seq<Shape>, s: State, es: seq<Event>)
    decreases |es|
  {
    es == [] || (Enabled(shapes, s, es[0]) && Run(shapes, Step(shapes, s, es[0]), es[1..]))
  }

  ghost function After(shapes: seq<Shape>, s: State, es: seq<Event>): State
    requires Run(shapes, s, es)
    decreases |es|
  {
    if es == [] then s else After(shapes, Step(shapes, s, es[0]), es[1..])
  }

  // ---------------------------------------------------------------- the invariant

  predicate Owns(token: string, name: Name) {
    name.Own? && name.token == token
  }

  ghost predicate DistinctTokens(shapes: seq<Shape>) {
    forall i, j :: 0 <= i < j < |shapes| ==> shapes[i].token != shapes[j].token
  }

  ghost predicate NoneOf(proxy: Toxics, token: string) {
    forall name :: name in proxy ==> !Owns(token, name)
  }

  predicate SameAt(p: Toxics, q: Toxics, name: Name) {
    (name in p <==> name in q) && (name in p && name in q ==> p[name] == q[name])
  }

  /** Outside the claim and the holder's own names, the proxy is as it was claimed. */
  ghost predicate Untouched(proxy: Toxics, base: Toxics, token: string) {
    forall name :: name != Lock && !Owns(token, name) ==> SameAt(proxy, base, name)
  }

  /** Exactly the first `done` of the shape's toxics are there, as the shape specifies them. */
  ghost predicate Installed(proxy: Toxics, shape: Shape, done: nat)
    requires done <= |Order(shape)|
  {
    forall kind :: InstalledAt(proxy, shape, Order(shape)[..done], kind)
  }

  predicate InstalledAt(proxy: Toxics, shape: Shape, kinds: seq<Kind>, kind: Kind) {
    var name := Own(shape.token, kind);
    && (name in proxy <==> kind in kinds)
    && (name in proxy ==> proxy[name] == SpecOf(shape, kind))
  }

  ghost predicate Removed(proxy: Toxics, token: string, tried: nat)
    requires tried <= 4
  {
    forall k :: 0 <= k < tried ==> Own(token, KINDS[k]) !in proxy
  }

  /** What a holder may rely on at each point. */
  ghost predicate Progress(proxy: Toxics, base: Toxics, shape: Shape, pc: Pc) {
    match pc
    case Checking => NoneOf(proxy, shape.token)
    case Installing(done) => done <= |Order(shape)| && Bare(base) && Installed(proxy, shape, done)
    case Measuring => Bare(base) && Installed(proxy, shape, |Order(shape)|)
    case Clearing(tried, stayed) => tried <= 4 && (!stayed ==> Removed(proxy, shape.token, tried))
    case _ => true
  }

  ghost predicate Holds(s: State, shape: Shape, pc: Pc) {
    && Lock in s.proxy && s.proxy[Lock] == LOCK_TOXIC && Lock !in s.base
    && NoneOf(s.base, shape.token)
    && Untouched(s.proxy, s.base, shape.token)
    && Progress(s.proxy, s.base, shape, pc)
  }

  ghost predicate OneHolder(runs: seq<Pc>) {
    forall i, j :: 0 <= i < j < |runs| ==> !(Holding(runs[i]) && Holding(runs[j]))
  }

  ghost predicate RunInv(s: State, shape: Shape, pc: Pc) {
    (pc.Idle? ==> NoneOf(s.proxy, shape.token)) && (Holding(pc) ==> Holds(s, shape, pc))
  }

  ghost predicate Inv(shapes: seq<Shape>, s: State) {
    && |s.runs| == |shapes|
    && OneHolder(s.runs)
    && forall i :: 0 <= i < |s.runs| ==> RunInv(s, shapes[i], s.runs[i])
  }

  // ---------------------------------------------------------------- each step keeps it

  lemma ClaimKeepsOwn(shapes: seq<Shape>, s: State, r: nat, fate: Fate)
    requires Inv(shapes, s) && Enabled(shapes, s, Claim(r, fate))
    ensures var s' := Step(shapes, s, Claim(r, fate)); RunInv(s', shapes[r], s'.runs[r])
  {
    assert RunInv(s, shapes[r], s.runs[r]);
  }

  lemma BareBase(proxy: Toxics, base: Toxics, token: string)
    requires Bare(proxy) && Untouched(proxy, base, token) && NoneOf(base, token) && Lock !in base
    ensures Bare(base)
  {
    forall name | name in base ensures !base[name].enabled {
      assert SameAt(proxy, base, name);
    }
  }

  lemma CheckKeepsOwn(shapes: seq<Shape>, s: State, r: nat, passes: bool)
    requires Inv(shapes, s) && Enabled(shapes, s, Check(r, passes))
    ensures var s' := Step(shapes, s, Check(r, passes)); RunInv(s', shapes[r], s'.runs[r])
  {
    assert RunInv(s, shapes[r], s.runs[r]);
    if passes && Bare(s.proxy) {
      BareBase(s.proxy, s.base, shapes[r].token);
    }
  }

  lemma OrderIsDistinct(shape: Shape, done: nat)
    requires done < |Order(shape)|
    ensures Order(shape)[done] !in Order(shape)[..done]
    ensures Order(shape)[..done + 1] == Order(shape)[..done] + [Order(shape)[done]]
  {
  }

  lemma PostKeepsUntouched(proxy: Toxics, base: Toxics, name: Name, toxic: Toxic, fate: Fate, token: string)
    requires Untouched(proxy, base, token) && Owns(token, name)
    ensures Untouched(Posted(proxy, name, toxic, fate), base, token)
  {
    forall n | n != Lock && !Owns(token, n) ensures SameAt(Posted(proxy, name, toxic, fate), base, n) {
      assert SameAt(proxy, base, n);
    }
  }

  lemma DeleteKeepsUntouched(proxy: Toxics, base: Toxics, name: Name, fate: Fate, token: string)
    requires Untouched(proxy, base, token) && (Owns(token, name) || name == Lock)
    ensures Untouched(Deleted(proxy, name, fate), base, token)
  {
    forall n | n != Lock && !Owns(token, n) ensures SameAt(Deleted(proxy, name, fate), base, n) {
      assert SameAt(proxy, base, n);
    }
  }

  lemma InstallExtends(proxy: Toxics, shape: Shape, done: nat)
    requires done < |Order(shape)| && Installed(proxy, shape, done)
    ensures var kind := Order(shape)[done];
            && Own(shape.token, kind) !in proxy
            && Installed(proxy[Own(shape.token, kind) := SpecOf(shape, kind)], shape, done + 1)
  {
    var next := Order(shape)[done];
    var now := proxy[Own(shape.token, next) := SpecOf(shape, next)];
    OrderIsDistinct(shape, done);
    assert InstalledAt(proxy, shape, Order(shape)[..done], next);
    var kinds := Order(shape)[..done + 1];
    forall kind ensures InstalledAt(now, shape, kinds, kind) {
      assert InstalledAt(proxy, shape, Order(shape)[..done], kind);
    }
  }

  lemma InstallKeepsOwn(shapes: seq<Shape>, s: State, r: nat, fate: Fate)
    requires Inv(shapes, s) && Enabled(shapes, s, Install(r, fate))
    ensures var s' := Step(shapes, s, Install(r, fate)); RunInv(s', shapes[r], s'.runs[r])
  {
    assert RunInv(s, shapes[r], s.runs[r]);
    var done := s.runs[r].done;
    var kind := Order(shapes[r])[done];
    InstallExtends(s.proxy, shapes[r], done);
    PostKeepsUntouched(s.proxy, s.base, Own(shapes[r].token, kind), SpecOf(shapes[r], kind), fate, shapes[r].token);
  }

  lemma DeleteExtends(proxy: Toxics, token: string, tried: nat)
    requires tried < 4 && Removed(proxy, token, tried)
    ensures Removed(proxy - {Own(token, KINDS[tried])}, token, tried + 1)
  {
  }

  lemma RemoveKeepsOwn(shapes: seq<Shape>, s: State, r: nat, fate: Fate)
    requires Inv(shapes, s) && Enabled(shapes, s, Remove(r, fate))
    ensures var s' := Step(shapes, s, Remove(r, fate)); RunInv(s', shapes[r], s'.runs[r])
  {
    assert RunInv(s, shapes[r], s.runs[r]);
    var tried := s.runs[r].tried;
    DeleteKeepsUntouched(s.proxy, s.base, Doomed(shapes[r], tried), fate, shapes[r].token);
    if tried < 4 && !s.runs[r].stayed {
      DeleteExtends(s.proxy, shapes[r].token, tried);
    }
  }

  lemma StepKeepsOwn(shapes: seq<Shape>, s: State, e: Event)
    requires Inv(shapes, s) && Enabled(shapes, s, e)
    ensures var s' := Step(shapes, s, e); RunInv(s', shapes[e.r], s'.runs[e.r])
  {
    assert RunInv(s, shapes[e.r], s.runs[e.r]);
    match e
    case Claim(r, fate) => ClaimKeepsOwn(shapes, s, r, fate);
    case Check(r, passes) => CheckKeepsOwn(shapes, s, r, passes);
    case Install(r, fate) => InstallKeepsOwn(shapes, s, r, fate);
    case Remove(r, fate) => RemoveKeepsOwn(shapes, s, r, fate);
    case _ =>
  }

  /** A step touches, on the proxy, the lock and its own run's names only; and the lock only if it is
      free or the run holds it. */
  lemma StepTouchesItsOwn(shapes: seq<Shape>, s: State, e: Event, name: Name)
    requires Inv(shapes, s) && Enabled(shapes, s, e)
    ensures !SameAt(Step(shapes, s, e).proxy, s.proxy, name)
            ==> Owns(shapes[e.r].token, name) || (name == Lock && (Holding(s.runs[e.r]) || Lock !in s.proxy))
  {
  }

  lemma StepKeepsOther(shapes: seq<Shape>, s: State, e: Event, i: nat)
    requires Inv(shapes, s) && DistinctTokens(shapes) && Enabled(shapes, s, e) && i < |shapes| && i != e.r
    ensures RunInv(Step(shapes, s, e), shapes[i], s.runs[i])
  {
    var s' := Step(shapes, s, e);
    assert RunInv(s, shapes[i], s.runs[i]);
    assert shapes[i].token != shapes[e.r].token;
    if Holding(s.runs[i]) {
      assert !Holding(s.runs[e.r]);
      assert s'.proxy == s.proxy && s'.base == s.base;
    } else if s.runs[i].Idle? {
      forall name | name in s'.proxy ensures !Owns(shapes[i].token, name) {
        StepTouchesItsOwn(shapes, s, e, name);
      }
    }
  }

  lemma StepKeepsOneHolder(shapes: seq<Shape>, s: State, e: Event)
    requires Inv(shapes, s) && Enabled(shapes, s, e)
    ensures OneHolder(Step(shapes, s, e).runs)
  {
    var s' := Step(shapes, s, e);
    if Holding(s'.runs[e.r]) && !Holding(s.runs[e.r]) {
      forall i | 0 <= i < |s.runs| ensures !Holding(s.runs[i]) {
        assert RunInv(s, shapes[i], s.runs[i]);
      }
    }
  }

  lemma StepKeepsInv(shapes: seq<Shape>, s: State, e: Event)
    requires Inv(shapes, s) && DistinctTokens(shapes) && Enabled(shapes, s, e)
    ensures Inv(shapes, Step(shapes, s, e))
  {
    var s' := Step(shapes, s, e);
    StepKeepsOneHolder(shapes, s, e);
    StepKeepsOwn(shapes, s, e);
    forall i | 0 <= i < |s'.runs| ensures RunInv(s', shapes[i], s'.runs[i]) {
      if i != e.r {
        StepKeepsOther(shapes, s, e, i);
      }
    }
  }

  lemma {:induction false} RunKeepsInv(shapes: seq<Shape>, s: State, es: seq<Event>)
    requires Inv(shapes, s) && DistinctTokens(shapes) && Run(shapes, s, es)
    ensures Inv(shapes, After(shapes, s, es))
    decreases |es|
  {
    if es != [] {
      StepKeepsInv(shapes, s, es[0]);
      RunKeepsInv(shapes, Step(shapes, s, es[0]), es[1..]);
    }
  }

  // ---------------------------------------------------------------- what every run keeps

  /** All runs still to start, on a proxy holding anything but toxics under their own fresh tokens:
      an operator's toxics, another run's leftovers, even a stale lock. */
  ghost predicate Fresh(shapes: seq<Shape>, s: State) {
    && |s.runs| == |shapes| && DistinctTokens(shapes)
    && (forall i :: 0 <= i < |shapes| ==> s.runs[i].Idle?)
    && (forall i :: 0 <= i < |shapes| ==> NoneOf(s.proxy, shapes[i].token))
  }

  ghost predicate Reachable(shapes: seq<Shape>, s: State) {
    exists s0, es :: Fresh(shapes, s0) && Run(shapes, s0, es) && After(shapes, s0, es) == s
  }

  lemma ReachableHoldsInv(shapes: seq<Shape>, s: State)
    requires Reachable(shapes, s)
    ensures Inv(shapes, s) && DistinctTokens(shapes)
  {
    var s0, es :| Fresh(shapes, s0) && Run(shapes, s0, es) && After(shapes, s0, es) == s;
    RunKeepsInv(shapes, s0, es);
  }

  /** A measured block runs through exactly its own shape: the lock and each toxic of the shape, as
      specified, are there, and nothing else on the proxy shapes the pipe. */
  lemma MeasuredThroughItsOwnShape(shapes: seq<Shape>, s: State, r: nat)
    requires Reachable(shapes, s) && r < |s.runs| == |shapes| && s.runs[r].Measuring?
    ensures Lock in s.proxy && s.proxy[Lock] == LOCK_TOXIC
    ensures forall kind :: kind in Order(shapes[r]) ==>
                             && Own(shapes[r].token, kind) in s.proxy
                             && s.proxy[Own(shapes[r].token, kind)] == SpecOf(shapes[r], kind)
    ensures forall name :: name in s.proxy && s.proxy[name].enabled && name != Lock ==>
                             Owns(shapes[r].token, name) && name.kind in Order(shapes[r])
  {
    ReachableHoldsInv(shapes, s);
    assert RunInv(s, shapes[r], s.runs[r]);
    var all := Order(shapes[r]);
    assert all[..|all|] == all;
    forall kind | kind in all
      ensures Own(shapes[r].token, kind) in s.proxy && s.proxy[Own(shapes[r].token, kind)] == SpecOf(shapes[r], kind)
    {
      assert InstalledAt(s.proxy, shapes[r], all[..|all|], kind);
    }
    forall name | name in s.proxy && name != Lock && !Owns(shapes[r].token, name) ensures !s.proxy[name].enabled {
      assert SameAt(s.proxy, s.base, name);
    }
    forall name | name in s.proxy && Owns(shapes[r].token, name) ensures name.kind in all {
      assert InstalledAt(s.proxy, shapes[r], all[..|all|], name.kind);
    }
  }

  /** Never two runs between claim and release; a measuring run's claim is always on the proxy. */
  lemma AtMostOneHolder(shapes: seq<Shape>, s: State, a: nat, b: nat)
    requires Reachable(shapes, s) && a < |s.runs| == |shapes| && b < |s.runs|
    requires Holding(s.runs[a]) && Holding(s.runs[b])
    ensures a == b && Lock in s.proxy
  {
    ReachableHoldsInv(shapes, s);
    assert RunInv(s, shapes[a], s.runs[a]);
  }

  /** No run ever removes or replaces a toxic that is not its own, nor another run's claim. */
  lemma OthersAreLeftAlone(shapes: seq<Shape>, s: State, e: Event, name: Name)
    requires Reachable(shapes, s) && Enabled(shapes, s, e) && name in s.proxy
    ensures !SameAt(Step(shapes, s, e).proxy, s.proxy, name)
            ==> Owns(shapes[e.r].token, name) || (name == Lock && Holding(s.runs[e.r]))
  {
    ReachableHoldsInv(shapes, s);
    StepTouchesItsOwn(shapes, s, e, name);
  }

  /** A run that ends with every removal answered leaves the proxy exactly as it claimed it. */
  lemma CleanEndRestoresTheProxy(shapes: seq<Shape>, s: State, r: nat, fate: Fate)
    requires Reachable(shapes, s) && Enabled(shapes, s, Remove(r, fate))
    requires Step(shapes, s, Remove(r, fate)).runs[r] == Stopped(true)
    ensures Step(shapes, s, Remove(r, fate)).proxy == s.base
  {
    ReachableHoldsInv(shapes, s);
    assert RunInv(s, shapes[r], s.runs[r]);
    var now := Step(shapes, s, Remove(r, fate)).proxy;
    forall name ensures SameAt(now, s.base, name) {
      if Owns(shapes[r].token, name) {
        assert exists k :: 0 <= k < 4 && KINDS[k] == name.kind by { KindsAreAll(name.kind); }
      } else if name != Lock {
        assert SameAt(s.proxy, s.base, name);
      }
    }
    SameEverywhere(now, s.base);
  }

  lemma KindsAreAll(kind: Kind)
    ensures exists k :: 0 <= k < 4 && KINDS[k] == kind
  {
    assert KINDS[0] == BandwidthUp && KINDS[1] == BandwidthDown && KINDS[2] == LatencyUp && KINDS[3] == LatencyDown;
  }

  lemma SameEverywhere(p: Toxics, q: Toxics)
    requires forall name :: SameAt(p, q, name)
    ensures p == q
  {
    assert p.Keys == q.Keys by {
      forall name ensures name in p.Keys <==> name in q.Keys {
        assert SameAt(p, q, name);
      }
    }
    forall name | name in p ensures p[name] == q[name] {
      assert SameAt(p, q, name);
    }
  }

  /** When a proxy that `clear` leaves shaped is still claimed. The lock is tried even after another
      removal failed, so this is so exactly when the lock's own removal was lost too, or nothing of the
      run stayed. */
  lemma LeftoversStayClaimedExactlyWhen(proxy: Toxics, token: string, fates: seq<Fate>)
    requires |fates| == 5 && Lock in proxy
    ensures var left := Cleared(proxy, ClearNames(token), fates).0;
            (forall k :: 0 <= k < 4 && ClearNames(token)[k] in left ==> Lock in left)
            <==> fates[4].Lost? || forall k :: 0 <= k < 4 && ClearNames(token)[k] in proxy ==> !fates[k].Lost?
  {
    var names := ClearNames(token);
    var left := Cleared(proxy, names, fates).0;
    ClearTriesEveryName(proxy, names, fates, Lock);
    assert Lock in left <==> fates[4].Lost?;
    forall k | 0 <= k < 4 ensures names[k] in left <==> names[k] in proxy && fates[k].Lost? {
      ClearTriesEveryName(proxy, names, fates, names[k]);
    }
  }

  /** So a proxy can end up shaped and unclaimed: the first removal is lost, the others answered. */
  lemma LeftoverWithoutAClaim(token: string)
    ensures var own := Own(token, BandwidthUp);
            var left := Cleared(map[own := Toxic(1, 0, 0, true), Lock := LOCK_TOXIC], ClearNames(token),
                                [Lost, Answered, Answered, Answered, Answered]).0;
            own in left && Lock !in left
  {
    var start: Toxics := map[Own(token, BandwidthUp) := Toxic(1, 0, 0, true), Lock := LOCK_TOXIC];
    var fates := [Lost, Answered, Answered, Answered, Answered];
    ClearTriesEveryName(start, ClearNames(token), fates, Own(token, BandwidthUp));
    ClearTriesEveryName(start, ClearNames(token), fates, Lock);
    assert ClearNames(token)[4] == Lock && fates[4] == Answered;
  }

  /** What is left behind, claimed or not, refuses the next run before it installs anything. */
  lemma LeftoverRefusesTheNextRun(shapes: seq<Shape>, s: State, r: nat, passes: bool, name: Name)
    requires Reachable(shapes, s) && Enabled(shapes, s, Check(r, passes))
    requires name in s.base && s.base[name].enabled
    ensures Step(shapes, s, Check(r, passes)).runs[r] == Clearing(0, false)
  {
    ReachableHoldsInv(shapes, s);
    assert RunInv(s, shapes[r], s.runs[r]);
    assert SameAt(s.proxy, s.base, name);
  }

  // ---------------------------------------------------------------- when a run goes on

  /** Whatever else is going on, a claim is granted exactly when none is there and the answer arrives; a check
      lets the run install exactly when it passes and nothing was enabled on the proxy it claimed; an
      installation goes on exactly when its answer arrives. */
  lemma GoesOnExactlyWhen(shapes: seq<Shape>, s: State, e: Event)
    requires Reachable(shapes, s) && Enabled(shapes, s, e)
    ensures var now := Step(shapes, s, e).runs[e.r];
            && (e.Claim? ==> (now.Checking? <==> Lock !in s.proxy && e.fate.Answered?))
            && (e.Check? ==> (now.Installing? <==> e.passes && forall name :: name in s.base ==> !s.base[name].enabled))
            && (e.Install? ==> (now.Installing? <==> e.fate.Answered?))
  {
    ReachableHoldsInv(shapes, s);
    assert RunInv(s, shapes[e.r], s.runs[e.r]);
    if e.Check? {
      BareAlike(s.proxy, s.base, shapes[e.r].token);
    }
    if e.Install? {
      InstallExtends(s.proxy, shapes[e.r], s.runs[e.r].done);
    }
  }

  lemma BareAlike(proxy: Toxics, base: Toxics, token: string)
    requires NoneOf(proxy, token) && NoneOf(base, token) && Untouched(proxy, base, token) && Lock !in base
    ensures Bare(proxy) <==> Bare(base)
  {
    forall name: Name | name != Lock && !Owns(token, name) ensures SameAt(proxy, base, name) {
    }
  }

  /** A run that has passed its check, left to itself and answered, comes to measure. */
  lemma {:induction false} InstallsThrough(shapes: seq<Shape>, s: State, r: nat) returns (es: seq<Event>)
    requires Inv(shapes, s) && DistinctTokens(shapes) && r < |s.runs| == |shapes| && s.runs[r].Installing?
    ensures Run(shapes, s, es) && r < |After(shapes, s, es).runs| && After(shapes, s, es).runs[r].Measuring?
    decreases |Order(shapes[r])| - (if s.runs[r].Installing? then s.runs[r].done else 0)
  {
    assert RunInv(s, shapes[r], s.runs[r]);
    var done := s.runs[r].done;
    var e := if done < |Order(shapes[r])| then Install(r, Answered) else Begin(r);
    var next := Step(shapes, s, e);
    es := [];
    if done < |Order(shapes[r])| {
      InstallExtends(s.proxy, shapes[r], done);
      StepKeepsInv(shapes, s, e);
      es := InstallsThrough(shapes, next, r);
    }
    assert ([e] + es)[1..] == es;
    es := [e] + es;
  }

  /** On a proxy that nobody claims and nothing shapes, any run that starts comes to measure if it is left to
      itself and its requests are answered, whatever the others have done before. */
  lemma FreeProxyIsMeasured(shapes: seq<Shape>, s: State, r: nat) returns (es: seq<Event>)
    requires Reachable(shapes, s) && r < |s.runs| == |shapes| && s.runs[r].Idle? && Lock !in s.proxy && Bare(s.proxy)
    ensures Run(shapes, s, es) && r < |After(shapes, s, es).runs| && After(shapes, s, es).runs[r].Measuring?
  {
    ReachableHoldsInv(shapes, s);
    var claimed := Step(shapes, s, Claim(r, Answered));
    StepKeepsInv(shapes, s, Claim(r, Answered));
    assert Bare(claimed.proxy);
    var checked := Step(shapes, claimed, Check(r, true));
    StepKeepsInv(shapes, claimed, Check(r, true));
    es := InstallsThrough(shapes, checked, r);
    assert ([Check(r, true)] + es)[1..] == es;
    es := [Check(r, true)] + es;
    assert ([Claim(r, Answered)] + es)[1..] == es;
    es := [Claim(r, Answered)] + es;
  }
}
