/** `_expire_nftables` (responders/firewall.py:151-173) on the rules of one chain as `nft -a
    list chain` shows them, and why the ledger may see a rollback as taking one marked rule
    out of a multiset. */
module Nftables {
  import opened Basics
  import opened Ledger
  import opened ResponderModel

  /** A rule line: its handle, unique in the chain, and the action named in its
      `sentinelpi:<action>:<chain>` comment, if any. */
  datatype Rule = Rule(handle: nat, marker: Option<Id>)

  ghost predicate Handles(rules: seq<Rule>) {
    forall i, j :: 0 <= i < j < |rules| ==> rules[i].handle != rules[j].handle
  }

  function Marked(rules: seq<Rule>, id: Id): nat {
    if rules == [] then 0 else (if rules[0].marker == Some(id) then 1 else 0) + Marked(rules[1..], id)
  }

  /** `rules` without those marked with `id`. */
  function Others(rules: seq<Rule>, id: Id): seq<Rule> {
    if rules == [] then []
    else (if rules[0].marker == Some(id) then [] else [rules[0]]) + Others(rules[1..], id)
  }

  /** The chain after one successful expiry. */
  function WithoutFirst(rules: seq<Rule>, id: Id): seq<Rule> {
    if rules == [] then []
    else if rules[0].marker == Some(id) then rules[1..]
    else [rules[0]] + WithoutFirst(rules[1..], id)
  }

  class NftChain {
    var rules: seq<Rule>

    constructor (rules: seq<Rule>)
      requires Handles(rules)
      ensures this.rules == rules
    {
      this.rules := rules;
    }

    /** `nft delete rule ... handle h`; `at` is where that rule stands. */
    method DeleteHandle(handle: nat, ghost at: nat, succeeds: bool) returns (code: nat)
      requires Handles(rules) && at < |rules| && rules[at].handle == handle
      modifies this
      ensures code == (if succeeds then 0 else 1)
      ensures rules == if succeeds then old(rules)[..at] + old(rules)[at + 1..] else old(rules)
    {
      if !succeeds {
        return 1;
      }
      var i := 0;
      while rules[i].handle != handle
        invariant 0 <= i <= at && rules == old(rules)
        decreases |rules| - i
      {
        i := i + 1;
      }
      assert i == at;
      rules := rules[..i] + rules[i + 1..];
      code := 0;
    }

    /** Lists the chain, finds the first marked rule and deletes it by its handle; an absent
        rule counts as success, and a failure changes nothing. */
    method ExpireMarked(id: Id, listed: bool, deleted: bool) returns (ok: bool)
      requires Handles(rules)
      modifies this
      ensures ok == (listed && (deleted || WithoutFirst(old(rules), id) == old(rules)))
      ensures rules == if ok then WithoutFirst(old(rules), id) else old(rules)
    {
      if !listed {
        return false;
      }
      var i := 0;
      while i < |rules| && rules[i].marker != Some(id)
        invariant 0 <= i <= |rules| && rules == old(rules)
        invariant WithoutFirst(rules, id) == rules[..i] + WithoutFirst(rules[i..], id)
      {
        assert rules[i..][1..] == rules[i + 1..];
        assert rules[..i] + [rules[i]] == rules[..i + 1];
        i := i + 1;
      }
      if i == |rules| {
        return true;
      }
      assert rules[i..][1..] == rules[i + 1..];
      assert |WithoutFirst(rules, id)| == |rules| - 1;
      var code := DeleteHandle(rules[i].handle, i, deleted);
      ok := code == 0;
    }
  }

  /** An expiry touches no other action's rule and no foreign rule. */
  lemma {:induction false} OthersStay(rules: seq<Rule>, id: Id)
    ensures Others(WithoutFirst(rules, id), id) == Others(rules, id)
    ensures Marked(WithoutFirst(rules, id), id) == if Marked(rules, id) == 0 then 0 else Marked(rules, id) - 1
  {
    if rules != [] && rules[0].marker != Some(id) {
      OthersStay(rules[1..], id);
      assert ([rules[0]] + WithoutFirst(rules[1..], id))[1..] == WithoutFirst(rules[1..], id);
    }
  }

  /** Handles stay unique, so the next expiry again deletes the rule it means. */
  lemma {:induction false} HandlesStay(rules: seq<Rule>, id: Id)
    requires Handles(rules)
    ensures Handles(WithoutFirst(rules, id))
    ensures forall r :: r in WithoutFirst(rules, id) ==> r in rules
  {
    if rules != [] && rules[0].marker != Some(id) {
      HandlesStay(rules[1..], id);
      var rest := WithoutFirst(rules[1..], id);
      forall i | 0 <= i < |rest| ensures rest[i].handle != rules[0].handle {
        assert rest[i] in rules[1..];
      }
    }
  }

  /** Success clears the chain of the action if and only if it had at most one rule there,
      which is what executing at most once guarantees. */
  lemma ExpiryClearsIffOnce(rules: seq<Rule>, id: Id)
    ensures Marked(WithoutFirst(rules, id), id) == 0 <==> Marked(rules, id) <= 1
  {
    OthersStay(rules, id);
  }

  /** The listed rules of a chain carry the marks that the ledger counts. */
  ghost predicate Shows(rules: seq<Rule>, marked: multiset<(Id, Chain)>, chain: Chain) {
    forall id :: marked[(id, chain)] == Marked(rules, id)
  }

  lemma {:induction false} UnmarkedStays(rules: seq<Rule>, id: Id)
    ensures WithoutFirst(rules, id) == rules <==> Marked(rules, id) == 0
    ensures |WithoutFirst(rules, id)| <= |rules|
  {
    if rules != [] {
      UnmarkedStays(rules[1..], id);
      if rules[0].marker != Some(id) {
        assert rules == [rules[0]] + rules[1..];
        assert WithoutFirst(rules, id)[1..] == WithoutFirst(rules[1..], id);
      }
    }
  }

  lemma {:induction false} OtherMarksStay(rules: seq<Rule>, id: Id, other: Id)
    requires other != id
    ensures Marked(WithoutFirst(rules, id), other) == Marked(rules, other)
  {
    if rules != [] && rules[0].marker != Some(id) {
      OtherMarksStay(rules[1..], id, other);
      assert ([rules[0]] + WithoutFirst(rules[1..], id))[1..] == WithoutFirst(rules[1..], id);
    }
  }

  /** Expiring on the listed chain and on the ledger's multiset is the same: same answer, the marks
      still agree afterwards, and the other chain is untouched. */
  lemma ExpiryIsTheLedgers(log: Log, rules: seq<Rule>, id: Id, chain: Chain, r: Rollback)
    requires Shows(rules, Rules(log), chain)
    ensures var (ok, drops) := ExpireChain(Rules(log), id, chain, r);
            && ok == (r.listed(chain) && (r.deleted(chain) || WithoutFirst(rules, id) == rules))
            && Shows(if ok then WithoutFirst(rules, id) else rules, Rules(log + drops), chain)
            && forall x, c :: c != chain ==> Rules(log + drops)[(x, c)] == Rules(log)[(x, c)]
  {
    UnmarkedStays(rules, id);
    OthersStay(rules, id);
    var (ok, drops) := ExpireChain(Rules(log), id, chain, r);
    if drops == [] {
      assert log + drops == log;
    } else {
      EffectOn(log, DropRule(id, chain));
      hide Rules;
      forall x ensures Rules(log + drops)[(x, chain)] == Marked(WithoutFirst(rules, id), x) {
        if x != id {
          OtherMarksStay(rules, id, x);
        }
      }
    }
  }
}
