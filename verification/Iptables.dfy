/**
 The masquerading rules of pkg/device/rule.go. The rule manager edits a chain it shares with others
 through three operations, each of which may fail without effect. Whatever fails, the chain stays the
 rules that were there before, in their order, followed by one copy of each managed rule.
 */
module Iptables {
  import opened Basics

  type Rule = seq<string>

  /** The rule for one destination. */
  function Masquerade(peerNet: string, dst: string): Rule {
    ["-s", peerNet, "-d", dst, "-j", "MASQUERADE"]
  }

  function Rules(peerNet: string, dsts: seq<string>): (rules: seq<Rule>)
    ensures |rules| == |dsts|
    ensures forall i | 0 <= i < |rules| :: rules[i] == Masquerade(peerNet, dsts[i])
  {
    seq(|dsts|, i requires 0 <= i < |dsts| => Masquerade(peerNet, dsts[i]))
  }

  /** The effect of `iptables -D`. */
  function RemoveFirst(chain: seq<Rule>, rule: Rule): seq<Rule> {
    if chain == [] then []
    else if chain[0] == rule then chain[1..]
    else [chain[0]] + RemoveFirst(chain[1..], rule)
  }

  function Without(s: seq<string>, x: string): seq<string> {
    if s == [] then []
    else if s[0] == x then s[1..]
    else [s[0]] + Without(s[1..], x)
  }

  /** The destinations whose rule is not in the chain, each once, in order of first appearance. */
  function Missing(chain: seq<Rule>, peerNet: string, dsts: seq<string>): (missing: seq<string>)
    ensures Distinct(missing)
    ensures forall d :: d in missing <==> d in dsts && Masquerade(peerNet, d) !in chain
  {
    if dsts == [] then []
    else
      var init, d := dsts[..|dsts| - 1], dsts[|dsts| - 1];
      var missing := Missing(chain, peerNet, init);
      assert dsts == init + [d];
      if Masquerade(peerNet, d) in chain || d in missing then missing else missing + [d]
  }

  lemma NothingMissing(chain: seq<Rule>, peerNet: string)
    ensures Missing(chain, peerNet, []) == []
  {
  }

  lemma MissingNext(chain: seq<Rule>, peerNet: string, dsts: seq<string>, i: nat)
    requires i < |dsts|
    ensures var missing := Missing(chain, peerNet, dsts[..i]);
            Missing(chain, peerNet, dsts[..i + 1])
            == missing + if Masquerade(peerNet, dsts[i]) in chain || dsts[i] in missing then [] else [dsts[i]]
  {
    assert dsts[..i + 1][..i] == dsts[..i];
  }

  lemma {:induction false} WithoutProperties(s: seq<string>, x: string)
    requires Distinct(s)
    ensures Distinct(Without(s, x))
    ensures forall y :: y in Without(s, x) <==> y in s && y != x
  {
    if s != [] {
      WithoutProperties(s[1..], x);
      assert s == [s[0]] + s[1..];
      assert forall i | 0 <= i < |Without(s[1..], x)| :: Without(s[1..], x)[i] in s[1..];
    }
  }

  lemma MasqueradeInjective(peerNet: string, a: string, b: string)
    ensures Masquerade(peerNet, a) == Masquerade(peerNet, b) <==> a == b
  {
    assert Masquerade(peerNet, a)[3] == a;
    assert Masquerade(peerNet, b)[3] == b;
  }

  lemma {:induction false} RemoveBehind(a: seq<Rule>, b: seq<Rule>, rule: Rule)
    requires rule !in a
    ensures RemoveFirst(a + b, rule) == a + RemoveFirst(b, rule)
  {
    if a == [] {
      assert a + b == b;
    } else {
      assert (a + b)[1..] == a[1..] + b;
      RemoveBehind(a[1..], b, rule);
    }
  }

  lemma RulesSplit(peerNet: string, d: string, rest: seq<string>)
    ensures Rules(peerNet, [d] + rest) == [Masquerade(peerNet, d)] + Rules(peerNet, rest)
  {
  }

  lemma {:induction false} RemoveOwn(peerNet: string, own: seq<string>, d: string)
    ensures RemoveFirst(Rules(peerNet, own), Masquerade(peerNet, d)) == Rules(peerNet, Without(own, d))
  {
    hide Masquerade, Rules;
    if own != [] {
      var rest := own[1..];
      assert own == [own[0]] + rest;
      RulesSplit(peerNet, own[0], rest);
      MasqueradeInjective(peerNet, own[0], d);
      assert ([Masquerade(peerNet, own[0])] + Rules(peerNet, rest))[1..] == Rules(peerNet, rest);
      if own[0] != d {
        RemoveOwn(peerNet, rest, d);
        RulesSplit(peerNet, own[0], Without(rest, d));
      }
    }
  }

  /** Deleting a rule that is only among the managed ones takes out that one and nothing else. */
  lemma RemoveManaged(original: seq<Rule>, peerNet: string, own: seq<string>, d: string)
    requires Masquerade(peerNet, d) !in original
    ensures RemoveFirst(original + Rules(peerNet, own), Masquerade(peerNet, d))
            == original + Rules(peerNet, Without(own, d))
  {
    RemoveBehind(original, Rules(peerNet, own), Masquerade(peerNet, d));
    RemoveOwn(peerNet, own, d);
  }

  /** `kept` is the subsequence of `s` of the strings in `keys`. */
  ghost predicate Kept(s: seq<string>, kept: seq<string>, keys: set<string>) {
    if s == [] then kept == []
    else if s[0] in keys then kept != [] && kept[0] == s[0] && Kept(s[1..], kept[1..], keys)
    else Kept(s[1..], kept, keys)
  }

  lemma {:induction false} KeptAll(s: seq<string>, keys: set<string>)
    requires forall x <- s :: x in keys
    ensures Kept(s, s, keys)
  {
    if s != [] {
      KeptAll(s[1..], keys);
    }
  }

  lemma {:induction false} KeptWithout(s: seq<string>, kept: seq<string>, x: string, keys: set<string>)
    requires Kept(s, kept, keys) && Distinct(s)
    ensures Kept(s, Without(kept, x), keys - {x})
  {
    if s != [] {
      if s[0] in keys {
        if s[0] == x {
          KeptOthers(s[1..], kept[1..], x, keys);
        } else {
          KeptWithout(s[1..], kept[1..], x, keys);
        }
      } else {
        KeptWithout(s[1..], kept, x, keys);
      }
    }
  }

  lemma {:induction false} KeptTail(a: seq<string>, b: seq<string>, kept: seq<string>, keys: set<string>)
    requires Kept(a + b, kept, keys)
    requires (forall x <- a :: x !in keys) && (forall x <- b :: x in keys)
    ensures kept == b
  {
    if a != [] {
      assert (a + b)[1..] == a[1..] + b;
      KeptTail(a[1..], b, kept, keys);
    } else if b != [] {
      assert (a + b)[1..] == [] + b[1..];
      KeptTail([], b[1..], kept[1..], keys);
    }
  }

  lemma {:induction false} KeptOthers(s: seq<string>, kept: seq<string>, x: string, keys: set<string>)
    requires Kept(s, kept, keys) && x !in s
    ensures Kept(s, kept, keys - {x})
  {
    if s != [] {
      KeptOthers(s[1..], if s[0] in keys then kept[1..] else kept, x, keys);
    }
  }

  /** The shared chain. `fault` says which of the calls fail. */
  class Chain {
    const fault: nat -> bool
    var calls: nat
    var rules: seq<Rule>

    constructor (fault: nat -> bool, rules: seq<Rule>)
      ensures this.fault == fault && this.rules == rules && calls == 0
    {
      this.fault, this.rules, calls := fault, rules, 0;
    }

    method Exists(rule: Rule) returns (found: bool, ok: bool)
      modifies this`calls
      ensures calls == old(calls) + 1 && ok == !fault(old(calls))
      ensures ok ==> found == (rule in rules)
    {
      ok := !fault(calls);
      found := ok && rule in rules;
      calls := calls + 1;
    }

    method Append(rule: Rule) returns (ok: bool)
      modifies this
      ensures calls == old(calls) + 1 && ok == !fault(old(calls))
      ensures rules == if ok then old(rules) + [rule] else old(rules)
    {
      ok := !fault(calls);
      if ok {
        rules := rules + [rule];
      }
      calls := calls + 1;
    }

    method Delete(rule: Rule) returns (ok: bool)
      modifies this
      ensures calls == old(calls) + 1 && ok == !fault(old(calls))
      ensures rules == if ok then RemoveFirst(old(rules), rule) else old(rules)
    {
      ok := !fault(calls);
      if ok {
        rules := RemoveFirst(rules, rule);
      }
      calls := calls + 1;
    }
  }

  /** How many of the calls from `from` on, before `end`, failed. */
  function Faults(fault: nat -> bool, from: nat, end: nat): nat
    requires from <= end
    decreases end
  {
    if from == end then 0 else Faults(fault, from, end - 1) + if fault(end - 1) then 1 else 0
  }

  lemma NoFaults(fault: nat -> bool, at: nat)
    ensures Faults(fault, at, at) == 0
  {
  }

  lemma OneCall(fault: nat -> bool, at: nat)
    ensures Faults(fault, at, at + 1) == if fault(at) then 1 else 0
  {
    NoFaults(fault, at);
  }

  lemma {:induction false} FaultsJoin(fault: nat -> bool, from: nat, mid: nat, end: nat)
    requires from <= mid <= end
    ensures Faults(fault, from, end) == Faults(fault, from, mid) + Faults(fault, mid, end)
    decreases end
  {
    if mid != end {
      FaultsJoin(fault, from, mid, end - 1);
    }
  }

  class RuleManager {
    const chain: Chain
    var rules: map<string, Rule>
    /** The network all rules are for, the chain without them, and the managed destinations in the
        order of their rules. */
    ghost const peerNet: string
    ghost const original: seq<Rule>
    ghost var own: seq<string>

    ghost predicate Valid()
      reads this, chain
    {
      && chain.rules == original + Rules(peerNet, own)
      && Distinct(own)
      && (forall d :: d in own <==> d in rules)
      && (forall d <- rules :: rules[d] == Masquerade(peerNet, d) && rules[d] !in original)
    }

    constructor (chain: Chain, ghost peerNet: string)
      ensures Valid() && this.chain == chain && this.peerNet == peerNet
      ensures rules == map[] && own == [] && original == chain.rules
    {
      this.chain, rules := chain, map[];
      this.peerNet, own, original := peerNet, [], chain.rules;
    }

    lemma ManagedTail()
      requires Valid()
      ensures chain.rules == original + Rules(peerNet, own)
    {
    }

    lemma OwnAreTheKeys()
      requires Valid()
      ensures Distinct(own) && Kept(own, own, rules.Keys)
    {
      KeptAll(own, rules.Keys);
    }

    lemma Present(d: string)
      requires Valid()
      ensures Masquerade(peerNet, d) in chain.rules <==> Masquerade(peerNet, d) in original || d in rules
    {
      var rule := Masquerade(peerNet, d);
      assert rule[3] == d;
      if rule in chain.rules && rule !in original {
        var i :| 0 <= i < |chain.rules| && chain.rules[i] == rule;
        assert rule == Rules(peerNet, own)[i - |original|];
        assert Masquerade(peerNet, own[i - |original|])[3] == own[i - |original|];
      }
      if d in rules {
        var i :| 0 <= i < |own| && own[i] == d;
        assert chain.rules[|original| + i] == rule;
      }
    }

    /** During the first half a rule is found if it was there before or has just been added. */
    lemma StillPresent(before: seq<string>, missing: seq<string>, d: string)
      requires Valid() && own == before + missing
      ensures Masquerade(peerNet, d) in chain.rules
              <==> Masquerade(peerNet, d) in original + Rules(peerNet, before) || d in missing
    {
      assert chain.rules == original + Rules(peerNet, before) + Rules(peerNet, missing);
      var rule := Masquerade(peerNet, d);
      assert rule[3] == d;
      if rule in Rules(peerNet, missing) {
        var i :| 0 <= i < |missing| && Rules(peerNet, missing)[i] == rule;
        assert Masquerade(peerNet, missing[i])[3] == missing[i];
      }
      if d in missing {
        var i :| 0 <= i < |missing| && missing[i] == d;
        assert Rules(peerNet, missing)[i] == rule;
      }
    }

    /** Appends the rule for `d` and manages it, unless the chain has it. */
    method AppendOne(net: string, d: string) returns (added: bool, ok: bool)
      requires Valid() && net == peerNet
      modifies this`rules, this`own, chain
      ensures Valid() && old(chain.calls) < chain.calls
      ensures ok <==> Faults(chain.fault, old(chain.calls), chain.calls) == 0
      ensures ok ==> added == (Masquerade(net, d) !in old(chain.rules))
      ensures !ok ==> !added
      ensures own == if added then old(own) + [d] else old(own)
      ensures rules == if added then old(rules)[d := Masquerade(net, d)] else old(rules)
      ensures added ==> d !in old(rules)
    {
      hide Faults;
      var rule := Masquerade(net, d);
      Present(d);
      var found, answered := chain.Exists(rule);
      OneCall(chain.fault, old(chain.calls));
      if !answered || found {
        return false, answered;
      }
      var appended := chain.Append(rule);
      OneCall(chain.fault, old(chain.calls) + 1);
      FaultsJoin(chain.fault, old(chain.calls), old(chain.calls) + 1, chain.calls);
      if !appended {
        return false, false;
      }
      own := own + [d];
      assert Rules(peerNet, own) == Rules(peerNet, old(own)) + [rule];
      rules := rules[d := rule];
      return true, true;
    }

    /** First half of an update: appends what the chain misses. */
    method AppendMissing(net: string, dsts: seq<string>) returns (updated: set<string>, ok: bool)
      requires Valid() && net == peerNet
      modifies this`rules, this`own, chain
      ensures Valid() && old(chain.calls) <= chain.calls
      ensures ok <==> Faults(chain.fault, old(chain.calls), chain.calls) == 0
      ensures updated !! old(rules).Keys && rules.Keys == old(rules).Keys + updated
      ensures forall d <- updated :: d in dsts
      ensures ok ==> own == old(own) + Missing(old(chain.rules), net, dsts)
      ensures ok ==> forall d :: d in updated <==> d in Missing(old(chain.rules), net, dsts)
    {
      hide Valid, Distinct, Missing, Masquerade, Rules, Faults;
      ManagedTail();
      assert Faults(chain.fault, chain.calls, chain.calls) == 0 by { NoFaults(chain.fault, chain.calls); }
      assert Missing(chain.rules, net, dsts[..0]) == [] by { NothingMissing(chain.rules, net); }
      updated, ok := {}, true;
      ghost var was := chain.rules;
      var i := 0;
      while i < |dsts|
        invariant 0 <= i <= |dsts| && Valid() && old(chain.calls) <= chain.calls
        invariant Faults(chain.fault, old(chain.calls), chain.calls) == 0
        invariant updated !! old(rules).Keys && rules.Keys == old(rules).Keys + updated
        invariant own == old(own) + Missing(was, net, dsts[..i])
        invariant forall d :: d in updated <==> d in Missing(was, net, dsts[..i])
        invariant was == original + Rules(peerNet, old(own))
      {
        MissingNext(was, net, dsts, i);
        StillPresent(old(own), Missing(was, net, dsts[..i]), dsts[i]);
        var added;
        ghost var calls := chain.calls;
        added, ok := AppendOne(net, dsts[i]);
        FaultsJoin(chain.fault, old(chain.calls), calls, chain.calls);
        if !ok {
          return;
        }
        if added {
          updated := updated + {dsts[i]};
        }
        i := i + 1;
      }
      assert dsts[..i] == dsts;
    }

    /** Takes one managed rule out of the chain and of the map, if neither call fails. */
    method Withdraw(d: string) returns (ok: bool)
      requires Valid() && d in rules
      modifies this`rules, this`own, chain
      ensures Valid() && old(chain.calls) <= chain.calls
      ensures Faults(chain.fault, old(chain.calls), chain.calls) == if ok then 0 else 1
      ensures own == if ok then Without(old(own), d) else old(own)
      ensures rules == if ok then old(rules) - {d} else old(rules)
      ensures chain.rules == if ok then RemoveFirst(old(chain.rules), old(rules)[d]) else old(chain.rules)
    {
      hide Faults, Without, RemoveFirst;
      Present(d);
      var found, answered := chain.Exists(rules[d]);
      OneCall(chain.fault, old(chain.calls));
      ok := answered;
      if answered && !found {
        assert false;
      } else if answered {
        ok := chain.Delete(rules[d]);
        if ok {
          RemoveManaged(original, peerNet, own, d);
          WithoutProperties(own, d);
          own := Without(own, d);
          rules := rules - {d};
        }
        OneCall(chain.fault, old(chain.calls) + 1);
        FaultsJoin(chain.fault, old(chain.calls), old(chain.calls) + 1, chain.calls);
      }
    }

    /** Second half of an update: withdraws every managed rule that was not just appended. */
    method WithdrawOthers(updated: set<string>) returns (ok: bool)
      requires Valid() && updated <= rules.Keys
      modifies this`rules, this`own, chain
      ensures Valid() && old(chain.calls) <= chain.calls
      ensures ok <==> Faults(chain.fault, old(chain.calls), chain.calls) == 0
      ensures updated <= rules.Keys <= old(rules).Keys
      ensures ok ==> rules.Keys == updated
      ensures Kept(old(own), own, rules.Keys)
    {
      hide Valid, Distinct, Kept, RemoveFirst, Without, Faults;
      ok := true;
      var todo := rules.Keys;
      assert Faults(chain.fault, chain.calls, chain.calls) == 0 by { NoFaults(chain.fault, chain.calls); }
      OwnAreTheKeys();
      while todo != {}
        invariant Valid() && old(chain.calls) <= chain.calls
        invariant Faults(chain.fault, old(chain.calls), chain.calls) == 0
        invariant todo <= rules.Keys && rules.Keys <= old(rules).Keys && updated <= rules.Keys <= updated + todo
        invariant Kept(old(own), own, rules.Keys)
        decreases todo
      {
        var src :| src in todo;
        todo := todo - {src};
        if src !in updated {
          ghost var was, keys, calls := own, rules.Keys, chain.calls;
          ok := Withdraw(src);
          FaultsJoin(chain.fault, old(chain.calls), calls, chain.calls);
          if !ok {
            return;
          }
          assert rules.Keys == keys - {src};
          KeptWithout(old(own), was, src, keys);
        }
      }
    }

    /** `UpdateIptables`, for one peer network and a chain nobody else edits. If no call fails, the
        managed rules are exactly those for the destinations whose rule the chain did not have before;
        what was managed until then is gone, also where it was asked for again. */
    method UpdateIptables(net: string, dsts: seq<string>) returns (ok: bool)
      requires Valid() && net == peerNet
      modifies this`rules, this`own, chain
      ensures Valid() && chain.rules == original + Rules(peerNet, own)
      ensures old(chain.calls) <= chain.calls && (ok <==> Faults(chain.fault, old(chain.calls), chain.calls) == 0)
      ensures ok ==> own == Missing(old(chain.rules), net, dsts)
      ensures forall d <- rules :: d in old(rules) || d in dsts
    {
      hide Distinct, Missing, Masquerade, Rules, Faults, Kept;
      ghost var before := own;
      var updated;
      updated, ok := AppendMissing(net, dsts);
      if !ok {
        return;
      }
      ghost var calls := chain.calls;
      ok := WithdrawOthers(updated);
      FaultsJoin(chain.fault, old(chain.calls), calls, chain.calls);
      if ok {
        KeptTail(before, Missing(old(chain.rules), net, dsts), own, updated);
      }
    }

    /** `ClearAllRules`: as many rules stay as calls failed; if none failed, the chain is the original. */
    method ClearAllRules()
      requires Valid()
      modifies this`rules, this`own, chain
      ensures Valid() && chain.rules == original + Rules(peerNet, own)
      ensures old(chain.calls) <= chain.calls && rules.Keys <= old(rules).Keys
      ensures |rules| == Faults(chain.fault, old(chain.calls), chain.calls)
      ensures |rules| == 0 ==> chain.rules == original
      ensures Kept(old(own), own, rules.Keys)
    {
      OwnAreTheKeys();
      WithdrawAll();
      assert own != [] ==> own[0] in rules;
    }

    method WithdrawAll()
      requires Valid()
      modifies this`rules, this`own, chain
      ensures Valid() && old(chain.calls) <= chain.calls && rules.Keys <= old(rules).Keys
      ensures |rules.Keys| == Faults(chain.fault, old(chain.calls), chain.calls)
      ensures Kept(old(own), own, rules.Keys)
    {
      hide Valid, Distinct, Kept, RemoveFirst, Without, Faults;
      var todo := rules.Keys;
      assert Faults(chain.fault, chain.calls, chain.calls) == 0 by { NoFaults(chain.fault, chain.calls); }
      OwnAreTheKeys();
      while todo != {}
        invariant Valid() && old(chain.calls) <= chain.calls
        invariant todo <= rules.Keys <= old(rules).Keys
        invariant |rules.Keys| == |todo| + Faults(chain.fault, old(chain.calls), chain.calls)
        invariant Kept(old(own), own, rules.Keys)
        decreases todo
      {
        var src :| src in todo;
        todo := todo - {src};
        ghost var was, keys, calls := own, rules.Keys, chain.calls;
        var ok := Withdraw(src);
        FaultsJoin(chain.fault, old(chain.calls), calls, chain.calls);
        if ok {
          assert rules.Keys == keys - {src};
          KeptWithout(old(own), was, src, keys);
        }
      }
    }
  }

  // ----- What updates mean for the caller -----

  /** After an update without faults a destination is managed exactly if it was asked for, is not in
      the original chain, and was not managed before: an update toggles. */
  lemma UpdateToggles(original: seq<Rule>, peerNet: string, own: seq<string>, dsts: seq<string>, d: string)
    ensures d in Missing(original + Rules(peerNet, own), peerNet, dsts)
            <==> d in dsts && Masquerade(peerNet, d) !in original && d !in own
  {
    var rules, rule := Rules(peerNet, own), Masquerade(peerNet, d);
    if rule in rules {
      var i :| 0 <= i < |rules| && rules[i] == rule;
      MasqueradeInjective(peerNet, own[i], d);
    }
    if d in own {
      var i :| 0 <= i < |own| && own[i] == d;
      assert rules[i] == rule;
    }
  }

  /** The same update twice over leaves nothing managed. */
  lemma SecondUpdateClears(original: seq<Rule>, peerNet: string, dsts: seq<string>)
    ensures var first := Missing(original, peerNet, dsts);
            Missing(original + Rules(peerNet, first), peerNet, dsts) == []
  {
    var first := Missing(original, peerNet, dsts);
    var second := Missing(original + Rules(peerNet, first), peerNet, dsts);
    if second != [] {
      UpdateToggles(original, peerNet, first, dsts, second[0]);
    }
  }

  // ----- What the rules do -----

  /** The argument behind a flag of a rule. */
  function Argument(rule: Rule, flag: string): Option<string> {
    if |rule| < 2 then None else if rule[0] == flag then Some(rule[1]) else Argument(rule[2..], flag)
  }

  /** A rule of the chain masquerades what goes from one network to another. */
  ghost predicate Masquerades(chain: seq<Rule>, source: string, destination: string) {
    exists rule <- chain ::
      && Argument(rule, "-s") == Some(source) && Argument(rule, "-d") == Some(destination)
      && Argument(rule, "-j") == Some("MASQUERADE")
  }

  /** The manager's rule says where packets come from, where they go to and what is done with them. */
  lemma RuleSays(net: string, d: string)
    ensures var rule := Masquerade(net, d);
            && Argument(rule, "-s") == Some(net) && Argument(rule, "-d") == Some(d)
            && Argument(rule, "-j") == Some("MASQUERADE")
  {
    var rule := Masquerade(net, d);
    var tail := rule[2..];
    assert tail == ["-d", d, "-j", "MASQUERADE"] && tail[2..] == ["-j", "MASQUERADE"];
    assert "-s"[1] != "-d"[1] && "-s"[1] != "-j"[1] && "-d"[1] != "-j"[1];
    assert Argument(tail[2..], "-j") == Some("MASQUERADE");
    assert Argument(tail, "-j") == Argument(tail[2..], "-j") && Argument(tail, "-d") == Some(d);
  }

  /** In a chain with the manager's rules, packets from the peer network to a destination are masqueraded
      exactly if they were without the manager, or the destination is managed. */
  lemma MasqueradedIff(original: seq<Rule>, peerNet: string, own: seq<string>, d: string)
    ensures Masquerades(original + Rules(peerNet, own), peerNet, d)
            <==> Masquerades(original, peerNet, d) || d in own
  {
    hide Masquerade, Argument;
    var rules := Rules(peerNet, own);
    forall i | 0 <= i < |own|
      ensures Argument(rules[i], "-s") == Some(peerNet) && Argument(rules[i], "-d") == Some(own[i])
      ensures Argument(rules[i], "-j") == Some("MASQUERADE")
    {
      RuleSays(peerNet, own[i]);
    }
    if d in own {
      var i :| 0 <= i < |own| && own[i] == d;
      assert rules[i] in original + rules;
    }
    if Masquerades(original + rules, peerNet, d) && !Masquerades(original, peerNet, d) {
      var rule :| rule in original + rules && Argument(rule, "-s") == Some(peerNet)
                  && Argument(rule, "-d") == Some(d) && Argument(rule, "-j") == Some("MASQUERADE");
      var i :| 0 <= i < |rules| && rules[i] == rule;
      assert own[i] == d;
    }
  }

  /** What an update is for: from a manager that manages nothing, every destination asked for is masqueraded
      afterwards; and after the same update again those are not that were not before the first. */
  lemma UpdateMasquerades(original: seq<Rule>, peerNet: string, dsts: seq<string>, d: string)
    requires d in dsts
    ensures var first := Missing(original, peerNet, dsts);
            && Masquerades(original + Rules(peerNet, first), peerNet, d)
            && var second := Missing(original + Rules(peerNet, first), peerNet, dsts);
               Masquerades(original + Rules(peerNet, second), peerNet, d) <==> Masquerades(original, peerNet, d)
  {
    hide Masquerades;
    var first := Missing(original, peerNet, dsts);
    var second := Missing(original + Rules(peerNet, first), peerNet, dsts);
    MasqueradedIff(original, peerNet, first, d);
    MasqueradedIff(original, peerNet, second, d);
    SecondUpdateClears(original, peerNet, dsts);
    if Masquerade(peerNet, d) in original {
      RuleIsEnough(original, peerNet, d);
    }
  }

  lemma RuleIsEnough(chain: seq<Rule>, net: string, d: string)
    requires Masquerade(net, d) in chain
    ensures Masquerades(chain, net, d)
  {
    RuleSays(net, d);
  }

  /** Rules are appended in the order of the request. */
  lemma {:induction false} MissingGrows(chain: seq<Rule>, peerNet: string, a: seq<string>, b: seq<string>)
    ensures Missing(chain, peerNet, a) <= Missing(chain, peerNet, a + b)
    decreases |b|
  {
    if b == [] {
      assert a + b == a;
    } else {
      var init := b[..|b| - 1];
      assert (a + b)[..|a + b| - 1] == a + init;
      MissingGrows(chain, peerNet, a, init);
    }
  }
}
