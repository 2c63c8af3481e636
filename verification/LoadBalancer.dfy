/**
 The load-balancer cascade: removing public IP addresses removes the frontends that use them,
 then the rules on those frontends, then the probes of those rules. A `LoadBalancer` is edited in
 place through its three lists; `Remove` is the value-level meaning of the whole cascade.
 */
module LoadBalancers {
  import opened Wrappers
  import opened Sequences

  /** `publicIP` is the ID of the referenced public IP address, if the reference and its ID are set. */
  datatype Frontend = Frontend(name: string, id: Option<string>, publicIP: Option<string>)

  /** `frontend` is the ID of the referenced frontend, if the reference and its ID are set. */
  datatype Rule = Rule(name: string, id: Option<string>, frontend: Option<string>)

  /** `rules` are the IDs of the referenced rules; the list itself may be nil. */
  datatype Probe = Probe(name: string, rules: Option<seq<Option<string>>>)

  datatype Balancer = Balancer(
    frontends: Option<seq<Frontend>>,
    rules: Option<seq<Rule>>,
    probes: Option<seq<Probe>>)

  predicate Names(ids: seq<string>, id: Option<string>) {
    id.Some? && id.value in ids
  }

  predicate FrontendGone(fc: Frontend, publicIPs: seq<string>) {
    fc.id.Some? && Names(publicIPs, fc.publicIP)
  }

  predicate RuleGone(rule: Rule, frontends: seq<string>) {
    rule.id.Some? && Names(frontends, rule.frontend)
  }

  function Uses(publicIPs: seq<string>): Frontend -> bool {
    fc => FrontendGone(fc, publicIPs)
  }

  function IsOn(frontends: seq<string>): Rule -> bool {
    rule => RuleGone(rule, frontends)
  }

  function KeptFrontends(fcs: seq<Frontend>, publicIPs: seq<string>): (kept: seq<Frontend>)
    ensures forall fc :: fc in kept <==> fc in fcs && !FrontendGone(fc, publicIPs)
  {
    KeepMembers(fcs, Uses(publicIPs));
    Keep(fcs, Uses(publicIPs))
  }

  function KeptRules(rules: seq<Rule>, frontends: seq<string>): (kept: seq<Rule>)
    ensures forall rule :: rule in kept <==> rule in rules && !RuleGone(rule, frontends)
  {
    KeepMembers(rules, IsOn(frontends));
    Keep(rules, IsOn(frontends))
  }

  /** The IDs of the frontends that go, in order. */
  function GoneFrontends(fcs: seq<Frontend>, publicIPs: seq<string>): (ids: seq<string>)
    ensures forall id :: id in ids <==> exists fc :: fc in fcs && FrontendGone(fc, publicIPs) && fc.id == Some(id)
  {
    if fcs == [] then []
    else
      var before, last := fcs[..|fcs| - 1], fcs[|fcs| - 1];
      assert forall fc :: fc in fcs <==> fc in before || fc == last;
      GoneFrontends(before, publicIPs) + if FrontendGone(last, publicIPs) then [last.id.value] else []
  }

  /** The IDs of the rules that go, in order. */
  function GoneRules(rules: seq<Rule>, frontends: seq<string>): (ids: seq<string>)
    ensures forall id :: id in ids <==> exists rule :: rule in rules && RuleGone(rule, frontends) && rule.id == Some(id)
  {
    if rules == [] then []
    else
      var before, last := rules[..|rules| - 1], rules[|rules| - 1];
      assert forall rule :: rule in rules <==> rule in before || rule == last;
      GoneRules(before, frontends) + if RuleGone(last, frontends) then [last.id.value] else []
  }

  /** How many of the listed rules are not removed. */
  function Survivors(listed: seq<Option<string>>, gone: seq<string>): (n: nat)
    ensures n <= |listed|
    ensures n > 0 <==> exists id :: id in listed && !Names(gone, id)
  {
    if listed == [] then 0
    else
      var before, last := listed[..|listed| - 1], listed[|listed| - 1];
      assert forall id :: id in listed <==> id in before || id == last;
      Survivors(before, gone) + if Names(gone, last) then 0 else 1
  }

  /** How often a probe is kept: once per surviving rule. */
  function Repetitions(probe: Probe, gone: seq<string>): nat {
    if probe.rules.Some? then Survivors(probe.rules.value, gone) else 0
  }

  function Surviving(gone: seq<string>): Probe -> nat {
    probe => Repetitions(probe, gone)
  }

  function KeptProbes(probes: seq<Probe>, gone: seq<string>): seq<Probe> {
    Repeat(probes, Surviving(gone))
  }

  /** The frontend IDs and the rule IDs that a removal takes away. */
  function FrontendsRemoved(lb: Balancer, publicIPs: seq<string>): seq<string> {
    if lb.frontends.Some? then GoneFrontends(lb.frontends.value, publicIPs) else []
  }

  function RulesRemoved(lb: Balancer, publicIPs: seq<string>): seq<string> {
    if lb.rules.Some? then GoneRules(lb.rules.value, FrontendsRemoved(lb, publicIPs)) else []
  }

  /** The balancer after the cascade. */
  function Remove(lb: Balancer, publicIPs: seq<string>): Balancer {
    Balancer(
      if lb.frontends.Some? then Some(KeptFrontends(lb.frontends.value, publicIPs)) else None,
      if lb.rules.Some? then Some(KeptRules(lb.rules.value, FrontendsRemoved(lb, publicIPs))) else None,
      if lb.probes.Some? then Some(KeptProbes(lb.probes.value, RulesRemoved(lb, publicIPs))) else None)
  }

  /** The load balancer fetched from Azure, whose lists are overwritten through pointers. */
  class LoadBalancer {
    var frontends: Option<seq<Frontend>>
    var rules: Option<seq<Rule>>
    var probes: Option<seq<Probe>>

    constructor (lb: Balancer)
      ensures View() == lb
    {
      frontends, rules, probes := lb.frontends, lb.rules, lb.probes;
    }

    function View(): Balancer
      reads this
    {
      Balancer(frontends, rules, probes)
    }

    method UpdateFrontendIPConfigurations(publicIPs: seq<string>) returns (fcIDs: seq<string>)
      modifies this`frontends
      ensures fcIDs == FrontendsRemoved(old(View()), publicIPs)
      ensures frontends == Remove(old(View()), publicIPs).frontends
    {
      fcIDs := [];
      if frontends.None? {
        return;
      }
      var updated := [];
      var fcs := frontends.value;
      for i := 0 to |fcs|
        invariant frontends == old(frontends)
        invariant fcIDs == GoneFrontends(fcs[..i], publicIPs)
        invariant updated == KeptFrontends(fcs[..i], publicIPs)
      {
        var fc := fcs[i];
        assert fcs[..i + 1][..i] == fcs[..i];
        if fc.id.Some? && fc.publicIP.Some? && fc.publicIP.value in publicIPs {
          fcIDs := fcIDs + [fc.id.value];
        } else {
          updated := updated + [fc];
        }
      }
      assert fcs[..|fcs|] == fcs;
      frontends := Some(updated);
    }

    method UpdateLoadBalancingRules(fcIDs: seq<string>) returns (ruleIDs: seq<string>)
      modifies this`rules
      ensures ruleIDs == if old(rules).Some? then GoneRules(old(rules).value, fcIDs) else []
      ensures rules == if old(rules).Some? then Some(KeptRules(old(rules).value, fcIDs)) else None
    {
      ruleIDs := [];
      if rules.None? {
        return;
      }
      var updated := [];
      var rs := rules.value;
      for i := 0 to |rs|
        invariant rules == old(rules)
        invariant ruleIDs == GoneRules(rs[..i], fcIDs)
        invariant updated == KeptRules(rs[..i], fcIDs)
      {
        var rule := rs[i];
        assert rs[..i + 1][..i] == rs[..i];
        if rule.id.Some? && rule.frontend.Some? && rule.frontend.value in fcIDs {
          ruleIDs := ruleIDs + [rule.id.value];
        } else {
          updated := updated + [rule];
        }
      }
      assert rs[..|rs|] == rs;
      rules := Some(updated);
    }

    method UpdateProbes(ruleIDs: seq<string>)
      modifies this`probes
      ensures probes == if old(probes).Some? then Some(KeptProbes(old(probes).value, ruleIDs)) else None
    {
      if probes.None? {
        return;
      }
      var updated := [];
      var ps := probes.value;
      for i := 0 to |ps|
        invariant probes == old(probes)
        invariant updated == KeptProbes(ps[..i], ruleIDs)
      {
        var probe := ps[i];
        assert ps[..i + 1][..i] == ps[..i];
        ghost var kept := updated;
        if probe.rules.Some? {
          var listed := probe.rules.value;
          for j := 0 to |listed|
            invariant probes == old(probes)
            invariant updated == kept + Copies(probe, Survivors(listed[..j], ruleIDs))
          {
            assert listed[..j + 1][..j] == listed[..j];
            if listed[j].None? || listed[j].value !in ruleIDs {
              updated := updated + [probe];
            }
          }
          assert listed[..|listed|] == listed;
        }
      }
      assert ps[..|ps|] == ps;
      probes := Some(updated);
    }

    /** The cascade as `RemoveFromLoadBalancer` runs it between fetching and writing back. */
    method RemovePublicIPs(publicIPs: seq<string>)
      modifies this
      ensures View() == Remove(old(View()), publicIPs)
    {
      var fcIDs := UpdateFrontendIPConfigurations(publicIPs);
      var ruleIDs := UpdateLoadBalancingRules(fcIDs);
      UpdateProbes(ruleIDs);
    }
  }

  // ----- Batch removal against sequential removal -----

  lemma GoneFrontendsSplit(fcs: seq<Frontend>, a: seq<string>, b: seq<string>, id: string)
    ensures id in GoneFrontends(fcs, a + b)
      <==> id in GoneFrontends(fcs, a) || id in GoneFrontends(KeptFrontends(fcs, a), b)
  {
  }

  lemma GoneRulesSplit(rules: seq<Rule>, a: seq<string>, b: seq<string>, ab: seq<string>, id: string)
    requires SameIDs(ab, a, b)
    ensures id in GoneRules(rules, ab)
      <==> id in GoneRules(rules, a) || id in GoneRules(KeptRules(rules, a), b)
  {
  }

  /** Removing A and then B leaves the same frontends and the same rules as removing both at once. */
  lemma BatchEqualsSequential(lb: Balancer, a: seq<string>, b: seq<string>)
    ensures Remove(Remove(lb, a), b).frontends == Remove(lb, a + b).frontends
    ensures Remove(Remove(lb, a), b).rules == Remove(lb, a + b).rules
    ensures SameIDs(RulesRemoved(lb, a + b), RulesRemoved(lb, a), RulesRemoved(Remove(lb, a), b))
  {
    var fa, fb, fab := FrontendsRemoved(lb, a), FrontendsRemoved(Remove(lb, a), b), FrontendsRemoved(lb, a + b);
    if lb.frontends.Some? {
      KeepTwice(lb.frontends.value, Uses(a), Uses(b), Uses(a + b));
      forall id ensures id in fab <==> id in fa || id in fb {
        GoneFrontendsSplit(lb.frontends.value, a, b, id);
      }
    }
    if lb.rules.Some? {
      KeepTwice(lb.rules.value, IsOn(fa), IsOn(fb), IsOn(fab));
      forall id {
        GoneRulesSplit(lb.rules.value, fa, fb, fab, id);
      }
    }
  }

  ghost predicate SameIDs(ab: seq<string>, a: seq<string>, b: seq<string>) {
    forall id :: id in ab <==> id in a || id in b
  }

  /** For one probe: removing rules `a` and then `b` keeps it as often as removing `ab` at once. It
      does so when one of the two steps removes every rule the probe lists, or when exactly one listed
      rule survives each step and it is the same one. In particular when the probe lists one rule. */
  predicate Batchable(probe: Probe, a: seq<string>, b: seq<string>, ab: seq<string>) {
    || Repetitions(probe, a) == 0
    || Repetitions(probe, b) == 0
    || (Repetitions(probe, a) == Repetitions(probe, b) == Repetitions(probe, ab) == 1)
  }

  lemma {:induction false} JointSurvivors(listed: seq<Option<string>>, a: seq<string>, b: seq<string>, ab: seq<string>)
    requires SameIDs(ab, a, b)
    ensures Survivors(listed, ab) <= Survivors(listed, a)
    ensures Survivors(listed, ab) <= Survivors(listed, b)
    ensures Survivors(listed, a) + Survivors(listed, b) <= |listed| + Survivors(listed, ab)
  {
    if listed != [] {
      JointSurvivors(listed[..|listed| - 1], a, b, ab);
    }
  }

  lemma BatchableIff(probe: Probe, a: seq<string>, b: seq<string>, ab: seq<string>)
    requires SameIDs(ab, a, b)
    ensures Batchable(probe, a, b, ab)
      <==> Repetitions(probe, a) * Repetitions(probe, b) == Repetitions(probe, ab)
    ensures probe.rules.Some? && |probe.rules.value| == 1 ==> Batchable(probe, a, b, ab)
  {
    if probe.rules.Some? {
      JointSurvivors(probe.rules.value, a, b, ab);
    }
    ProductIff(Repetitions(probe, a), Repetitions(probe, b), Repetitions(probe, ab));
  }

  lemma ProductIff(x: nat, y: nat, z: nat)
    requires z <= x && z <= y
    ensures x * y == z <==> x == 0 || y == 0 || x == y == z == 1
  {
    if x >= 1 && y >= 1 {
      assert (x - 1) * (y - 1) >= 0;
      assert x * y >= x + y - 1;
    }
  }

  ghost predicate AllBatchable(probes: seq<Probe>, a: seq<string>, b: seq<string>, ab: seq<string>) {
    forall probe :: probe in probes ==> Batchable(probe, a, b, ab)
  }

  /** The probes agree as well exactly when every probe of the balancer is batchable. */
  lemma BatchProbesIff(lb: Balancer, a: seq<string>, b: seq<string>)
    requires lb.probes.Some?
    ensures (Remove(Remove(lb, a), b) == Remove(lb, a + b)) <==>
      AllBatchable(lb.probes.value, RulesRemoved(lb, a), RulesRemoved(Remove(lb, a), b), RulesRemoved(lb, a + b))
  {
    var ra, rb, rab := RulesRemoved(lb, a), RulesRemoved(Remove(lb, a), b), RulesRemoved(lb, a + b);
    BatchEqualsSequential(lb, a, b);
    KeptProbesIff(lb.probes.value, ra, rb, rab);
  }

  lemma {:induction false} KeptProbesIff(probes: seq<Probe>, a: seq<string>, b: seq<string>, ab: seq<string>)
    requires SameIDs(ab, a, b)
    ensures (KeptProbes(KeptProbes(probes, a), b) == KeptProbes(probes, ab)) <==> AllBatchable(probes, a, b, ab)
  {
    var product := (p: Probe) => Repetitions(p, a) * Repetitions(p, b);
    RepeatTwice(probes, Surviving(a), Surviving(b), product);
    RepeatSameIff(probes, product, Surviving(ab));
    forall probe {
      BatchableIff(probe, a, b, ab);
    }
  }

  /** A probe listing two rules, neither of them removed, is doubled by every removal. */
  lemma BatchProbesCounterexample()
    ensures var probe := Probe("p", Some([Some("r1"), Some("r2")]));
      var lb := Balancer(None, None, Some([probe]));
      Remove(Remove(lb, ["x"]), ["y"]).probes == Some([probe, probe, probe, probe])
      && Remove(lb, ["x", "y"]).probes == Some([probe, probe])
  {
    var probe := Probe("p", Some([Some("r1"), Some("r2")]));
    AllSurvive(probe.rules.value);
    KeptTwice([], probe);
    KeptTwice([probe], probe);
    var one, two, four := [probe], [probe, probe], [probe, probe, probe, probe];
    assert [] + [probe] == one && one + [probe] == two && two + two == four;
    assert KeptProbes([], []) == [];
    assert KeptProbes(one, []) == two;
    assert KeptProbes(two, []) == four;
    ProbesOnly(one, ["x"]);
    ProbesOnly(one, ["x", "y"]);
    ProbesOnly(two, ["y"]);
  }

  lemma ProbesOnly(probes: seq<Probe>, publicIPs: seq<string>)
    ensures Remove(Balancer(None, None, Some(probes)), publicIPs) == Balancer(None, None, Some(KeptProbes(probes, [])))
  {
  }

  lemma KeptTwice(probes: seq<Probe>, probe: Probe)
    requires Repetitions(probe, []) == 2
    ensures KeptProbes(probes + [probe], []) == KeptProbes(probes, []) + [probe, probe]
  {
  }

  // ----- Idempotence -----

  lemma {:induction false} NothingLeftToRemove(lb: Balancer, a: seq<string>)
    ensures FrontendsRemoved(Remove(lb, a), a) == []
    ensures RulesRemoved(Remove(lb, a), a) == []
  {
    EmptyIf(FrontendsRemoved(Remove(lb, a), a));
    EmptyIf(RulesRemoved(Remove(lb, a), a));
  }

  lemma EmptyIf(ids: seq<string>)
    ensures (forall id :: id !in ids) ==> ids == []
  {
    if ids != [] {
      assert ids[0] in ids;
    }
  }

  lemma {:induction false} AllSurvive(listed: seq<Option<string>>)
    ensures Survivors(listed, []) == |listed|
  {
    if listed != [] {
      AllSurvive(listed[..|listed| - 1]);
    }
  }

  predicate OneRule(p: Probe) {
    p.rules.Some? && |p.rules.value| == 1
  }

  /** Repeating a removal changes neither frontends nor rules, and the probes stay the same set. They
      stay the same list exactly if every probe that was kept lists exactly one rule. */
  lemma {:induction false} RemoveAgain(lb: Balancer, a: seq<string>)
    ensures Remove(Remove(lb, a), a).frontends == Remove(lb, a).frontends
    ensures Remove(Remove(lb, a), a).rules == Remove(lb, a).rules
    ensures lb.probes.Some? ==>
      forall p :: p in Remove(Remove(lb, a), a).probes.value <==> p in Remove(lb, a).probes.value
    ensures lb.probes.Some? ==>
      (Remove(Remove(lb, a), a) == Remove(lb, a) <==>
        forall p :: p in Remove(lb, a).probes.value ==> OneRule(p))
  {
    NothingLeftToRemove(lb, a);
    if lb.frontends.Some? {
      KeepTwice(lb.frontends.value, Uses(a), Uses(a), Uses(a));
    }
    if lb.rules.Some? {
      var fa := FrontendsRemoved(lb, a);
      KeepTwice(lb.rules.value, IsOn(fa), IsOn([]), IsOn(fa));
    }
    if lb.probes.Some? {
      KeptProbesAgain(lb.probes.value, RulesRemoved(lb, a));
    }
  }

  lemma {:induction false} KeptProbesAgain(probes: seq<Probe>, gone: seq<string>)
    ensures forall p :: p in KeptProbes(KeptProbes(probes, gone), []) <==> p in KeptProbes(probes, gone)
    ensures KeptProbes(KeptProbes(probes, gone), []) == KeptProbes(probes, gone)
      <==> forall p :: p in KeptProbes(probes, gone) ==> OneRule(p)
  {
    var kept := KeptProbes(probes, gone);
    forall p | p in kept
      ensures p.rules.Some? && Repetitions(p, []) == |p.rules.value| > 0
    {
      KeptProbeIff(probes, gone, p);
      AllSurvive(p.rules.value);
    }
    var one := (p: Probe) => 1;
    RepeatSameIff(kept, Surviving([]), one);
    RepeatOnce(kept, one);
    forall p ensures p in KeptProbes(kept, []) <==> p in kept {
      KeptProbeIff(kept, [], p);
      if p in kept {
        assert p.rules.value[0] in p.rules.value;
      }
    }
  }

  lemma {:induction false} RepeatOnce(probes: seq<Probe>, one: Probe -> nat)
    requires forall p :: one(p) == 1
    ensures Repeat(probes, one) == probes
  {
    if probes != [] {
      var before, last := probes[..|probes| - 1], probes[|probes| - 1];
      RepeatOnce(before, one);
      CopiesAre(last, 1);
      assert Copies(last, 1) == [last];
      assert Repeat(probes, one) == before + [last] == probes;
    }
  }

  /** Removing no address at all leaves the balancer as it is exactly if every probe lists one rule. */
  lemma {:induction false} RemoveNothingIff(lb: Balancer)
    ensures Remove(lb, []).frontends == lb.frontends && Remove(lb, []).rules == lb.rules
    ensures Remove(lb, []) == lb <==> (lb.probes.Some? ==> forall p :: p in lb.probes.value ==> OneRule(p))
  {
    EmptyIf(FrontendsRemoved(lb, []));
    EmptyIf(RulesRemoved(lb, []));
    if lb.frontends.Some? {
      KeepAll(lb.frontends.value, Uses([]));
    }
    if lb.rules.Some? {
      KeepAll(lb.rules.value, IsOn([]));
    }
    if lb.probes.Some? {
      var probes := lb.probes.value;
      var one := (p: Probe) => 1;
      RepeatSameIff(probes, Surviving([]), one);
      RepeatOnce(probes, one);
      forall p | p in probes
        ensures Surviving([])(p) == one(p) <==> OneRule(p)
      {
        if p.rules.Some? {
          AllSurvive(p.rules.value);
        }
      }
    }
  }

  // ----- What is kept -----

  /** A probe is kept iff it was there, its rule list is set, and some listed rule survives; it then
      occurs once per surviving rule for each of its occurrences. */
  lemma KeptProbeIff(probes: seq<Probe>, gone: seq<string>, p: Probe)
    ensures p in KeptProbes(probes, gone)
      <==> p in probes && p.rules.Some? && exists id :: id in p.rules.value && !Names(gone, id)
    ensures multiset(KeptProbes(probes, gone))[p] == multiset(probes)[p] * Repetitions(p, gone)
  {
    var times := Surviving(gone);
    RepeatCount(probes, times, p);
    var n, t := multiset(probes)[p], Repetitions(p, gone);
    TimesIsProduct(n, t);
    assert p in probes <==> n > 0;
    PositiveProduct(n, t);
    assert p in KeptProbes(probes, gone) <==> multiset(KeptProbes(probes, gone))[p] > 0;
  }

  lemma PositiveProduct(n: nat, t: nat)
    ensures n * t > 0 <==> n > 0 && t > 0
  {
    if n > 0 && t > 0 {
      assert (n - 1) * t >= 0;
    }
  }

  ghost predicate Exists(lb: Balancer, frontend: string) {
    lb.frontends.Some? && exists fc :: fc in lb.frontends.value && fc.id == Some(frontend)
  }

  /** Every reference from a rule to a frontend has a target. */
  ghost predicate Intact(lb: Balancer) {
    lb.rules.Some? ==>
      forall rule :: rule in lb.rules.value && rule.frontend.Some? ==> Exists(lb, rule.frontend.value)
  }

  /** Some rule without an ID, which the cascade never removes, is on a removed frontend. */
  ghost predicate Stranded(lb: Balancer, publicIPs: seq<string>) {
    && lb.rules.Some?
    && exists rule ::
         rule in lb.rules.value && rule.id.None? && Names(FrontendsRemoved(lb, publicIPs), rule.frontend)
  }

  /** The cascade leaves every rule with its frontend, unless a rule without an ID gets in the way. */
  lemma RemoveKeepsIntact(lb: Balancer, publicIPs: seq<string>)
    requires Intact(lb) && !Stranded(lb, publicIPs)
    ensures Intact(Remove(lb, publicIPs))
  {
  }

  /** When frontend IDs are unique, such a rule is the only way to lose integrity. */
  lemma RemoveKeepsIntactIff(lb: Balancer, publicIPs: seq<string>)
    requires Intact(lb) && UniqueFrontends(lb)
    ensures Intact(Remove(lb, publicIPs)) <==> !Stranded(lb, publicIPs)
  {
  }

  ghost predicate UniqueFrontends(lb: Balancer) {
    lb.frontends.Some? ==> forall f, g :: f in lb.frontends.value && g in lb.frontends.value && f.id.Some? && f.id == g.id ==> f == g
  }

  /** No kept frontend with an ID uses a removed address. */
  lemma NoFrontendUsesRemoved(lb: Balancer, publicIPs: seq<string>, fc: Frontend)
    requires lb.frontends.Some?
    ensures fc in Remove(lb, publicIPs).frontends.value
      <==> fc in lb.frontends.value && (fc.id.Some? ==> !Names(publicIPs, fc.publicIP))
  {
  }

  // ----- The cascade in plain terms -----

  /** A frontend of the balancer that has an ID and refers to one of the addresses. */
  ghost predicate FrontendHit(lb: Balancer, publicIPs: seq<string>, fc: Frontend) {
    && lb.frontends.Some? && fc in lb.frontends.value
    && fc.id.Some? && fc.publicIP.Some? && fc.publicIP.value in publicIPs
  }

  /** A rule of the balancer that has an ID and refers to the ID of such a frontend. */
  ghost predicate RuleHit(lb: Balancer, publicIPs: seq<string>, rule: Rule) {
    && lb.rules.Some? && rule in lb.rules.value
    && rule.id.Some? && rule.frontend.Some?
    && exists fc :: FrontendHit(lb, publicIPs, fc) && fc.id == rule.frontend
  }

  /** A reference of a probe that leads to such a rule. */
  ghost predicate ReferenceHit(lb: Balancer, publicIPs: seq<string>, id: Option<string>) {
    id.Some? && exists rule :: RuleHit(lb, publicIPs, rule) && rule.id == id
  }

  /** A removal keeps exactly the frontends that are not hit, in order; nil lists stay nil. */
  lemma FrontendsKept(lb: Balancer, publicIPs: seq<string>) returns (at: seq<nat>)
    ensures Remove(lb, publicIPs).frontends.Some? <==> lb.frontends.Some?
    ensures lb.frontends.Some? ==>
      var was, kept := lb.frontends.value, Remove(lb, publicIPs).frontends.value;
      && ComesFrom(kept, was, at) && StrictlyAscending(at)
      && (forall k :: 0 <= k < |was| ==> (k in at <==> !FrontendHit(lb, publicIPs, was[k])))
      && (forall fc :: fc in kept <==> fc in was && !FrontendHit(lb, publicIPs, fc))
  {
    at := [];
    if lb.frontends.Some? {
      at := KeptPositions(lb.frontends.value, Uses(publicIPs));
      KeepIsOrderedComplement(lb.frontends.value, Uses(publicIPs));
    }
  }

  lemma FrontendsRemovedAre(lb: Balancer, publicIPs: seq<string>, id: string)
    ensures id in FrontendsRemoved(lb, publicIPs) <==> exists fc :: FrontendHit(lb, publicIPs, fc) && fc.id == Some(id)
  {
    if id in FrontendsRemoved(lb, publicIPs) {
      var fc :| fc in lb.frontends.value && FrontendGone(fc, publicIPs) && fc.id == Some(id);
      assert FrontendHit(lb, publicIPs, fc);
    }
  }

  lemma RuleGoneIff(lb: Balancer, publicIPs: seq<string>, rule: Rule)
    requires lb.rules.Some? && rule in lb.rules.value
    ensures RuleGone(rule, FrontendsRemoved(lb, publicIPs)) <==> RuleHit(lb, publicIPs, rule)
  {
    if rule.frontend.Some? {
      FrontendsRemovedAre(lb, publicIPs, rule.frontend.value);
    }
  }

  /** It keeps exactly the rules that are not on a removed frontend, in order. */
  lemma RulesKept(lb: Balancer, publicIPs: seq<string>) returns (at: seq<nat>)
    ensures Remove(lb, publicIPs).rules.Some? <==> lb.rules.Some?
    ensures lb.rules.Some? ==>
      var was, kept := lb.rules.value, Remove(lb, publicIPs).rules.value;
      && ComesFrom(kept, was, at) && StrictlyAscending(at)
      && (forall k :: 0 <= k < |was| ==> (k in at <==> !RuleHit(lb, publicIPs, was[k])))
      && (forall rule :: rule in kept <==> rule in was && !RuleHit(lb, publicIPs, rule))
  {
    at := [];
    if lb.rules.Some? {
      var was, gone := lb.rules.value, IsOn(FrontendsRemoved(lb, publicIPs));
      at := KeptPositions(was, gone);
      KeepIsOrderedComplement(was, gone);
      forall rule | rule in was
        ensures RuleGone(rule, FrontendsRemoved(lb, publicIPs)) <==> RuleHit(lb, publicIPs, rule)
      {
        RuleGoneIff(lb, publicIPs, rule);
      }
      assert forall k :: 0 <= k < |was| ==> was[k] in was;
    }
  }

  lemma ReferenceGoneIff(lb: Balancer, publicIPs: seq<string>, id: Option<string>)
    ensures Names(RulesRemoved(lb, publicIPs), id) <==> ReferenceHit(lb, publicIPs, id)
  {
    if Names(RulesRemoved(lb, publicIPs), id) {
      var rule :| rule in lb.rules.value && RuleGone(rule, FrontendsRemoved(lb, publicIPs)) && rule.id == Some(id.value);
      RuleGoneIff(lb, publicIPs, rule);
    }
    forall rule | RuleHit(lb, publicIPs, rule)
      ensures RuleGone(rule, FrontendsRemoved(lb, publicIPs))
    {
      RuleGoneIff(lb, publicIPs, rule);
    }
  }

  ghost function Free(lb: Balancer, publicIPs: seq<string>): Option<string> -> bool {
    id => !ReferenceHit(lb, publicIPs, id)
  }

  /** The positions of the references of a probe that lead to no removed rule. */
  ghost function Left(lb: Balancer, publicIPs: seq<string>, listed: seq<Option<string>>): set<nat> {
    Where(listed, Free(lb, publicIPs))
  }

  lemma SurvivorsAreLeft(lb: Balancer, publicIPs: seq<string>, listed: seq<Option<string>>)
    ensures Survivors(listed, RulesRemoved(lb, publicIPs)) == |Left(lb, publicIPs, listed)|
  {
    var gone, free := RulesRemoved(lb, publicIPs), Free(lb, publicIPs);
    forall id
      ensures free(id) <==> !Names(gone, id)
    {
      ReferenceGoneIff(lb, publicIPs, id);
    }
    SurvivorsWhere(listed, gone, free);
  }

  lemma {:induction false} SurvivorsWhere(listed: seq<Option<string>>, gone: seq<string>, free: Option<string> -> bool)
    requires forall id :: free(id) <==> !Names(gone, id)
    ensures Survivors(listed, gone) == |Where(listed, free)|
  {
    if listed == [] {
      assert Where(listed, free) == {};
    } else {
      SurvivorsWhere(listed[..|listed| - 1], gone, free);
      OneMoreWhere(listed, free);
    }
  }

  /** It keeps every probe, in order, once for each of its references that leads to no removed rule; a
      probe whose list of references is nil goes. */
  lemma ProbesKept(lb: Balancer, publicIPs: seq<string>) returns (at: seq<nat>)
    ensures Remove(lb, publicIPs).probes.Some? <==> lb.probes.Some?
    ensures lb.probes.Some? ==>
      var was, kept := lb.probes.value, Remove(lb, publicIPs).probes.value;
      && ComesFrom(kept, was, at) && Ascending(at)
      && (forall k :: 0 <= k < |was| && was[k].rules.Some? ==>
            multiset(at)[k] == |Left(lb, publicIPs, was[k].rules.value)|)
      && (forall k :: 0 <= k < |was| && was[k].rules.None? ==> k !in at)
  {
    at := [];
    if lb.probes.Some? {
      var was, times := lb.probes.value, Surviving(RulesRemoved(lb, publicIPs));
      at := RepeatedPositions(was, times);
      RepeatIsOrdered(was, times);
      forall k | 0 <= k < |was| && was[k].rules.Some?
        ensures times(was[k]) == |Left(lb, publicIPs, was[k].rules.value)|
      {
        SurvivorsAreLeft(lb, publicIPs, was[k].rules.value);
      }
    }
  }
}
