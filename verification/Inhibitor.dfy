/** The inhibitor: its rules with their caches and indices, updated in place. */
module Inhibitor {
  import opened Basics
  import opened Labels
  import opened Inhibition

  class InhibitRule {
    const env: Env
    const rule: Rule
    var scache: map<Fingerprint, Alert>
    var sindex: map<Fingerprint, Fingerprint>

    constructor (env: Env, rule: Rule)
      ensures this.env == env && this.rule == rule && View() == EMPTY
    {
      this.env, this.rule := env, rule;
      scache, sindex := map[], map[];
    }

    function View(): State
      reads this
    {
      State(scache, sindex)
    }

    method UpdateIndex(a: Alert)
      modifies this`sindex
      ensures View() == Reindexed(env, rule, old(View()), a)
    {
      var fp, eq := env.fp(a.labels), KeyOf(env, rule, a.labels);
      if eq !in sindex {
        sindex := sindex[eq := fp];
        return;
      }
      var indexed := sindex[eq];
      if indexed == fp { return; }
      if indexed !in scache {
        sindex := sindex[eq := fp];
        return;
      }
      if ResolvedAt(scache[indexed], a.endsAt) { sindex := sindex[eq := fp]; }
    }

    method ProcessAlert(a: Alert)
      modifies this
      ensures View() == Process(env, rule, old(View()), a)
    {
      if AllMatch(env.rx, rule.source, a.labels) {
        scache := scache[env.fp(a.labels) := a];
        UpdateIndex(a);
      }
    }

    method FindEqualSourceAlert(l: LabelSet, now: Time) returns (found: Option<Alert>)
      ensures found == Find(env, rule, View(), l, now)
    {
      var eq := KeyOf(env, rule, l);
      if eq !in sindex { return None; }
      var fp := sindex[eq];
      if fp !in scache { return None; }
      if ResolvedAt(scache[fp], now) { return None; }
      return Some(scache[fp]);
    }

    method HasEqual(l: LabelSet, excludeTwoSidedMatch: bool, now: Time) returns (found: Option<Alert>)
      ensures found == var f := Find(env, rule, View(), l, now);
        if f.Some? && excludeTwoSidedMatch && AllMatch(env.rx, rule.target, f.value.labels) then None else f
    {
      found := FindEqualSourceAlert(l, now);
      if found.Some? && excludeTwoSidedMatch && AllMatch(env.rx, rule.target, found.value.labels) { return None; }
    }

    /** Deletes the index entry for the key of each alert handed over. */
    method DropEntries(deleted: seq<Alert>)
      modifies this`sindex
      ensures View() == WithoutKeys(env, rule, old(View()), deleted)
    {
      for i := 0 to |deleted|
        invariant sindex == old(sindex) - (set key | key in old(sindex) && KeyAmong(env, rule, deleted[..i], key))
      {
        forall key { KeyAmongSnoc(env, rule, deleted, i, key); }
        sindex := sindex - {KeyOf(env, rule, deleted[i].labels)};
      }
      assert deleted[..|deleted|] == deleted;
    }

    /** Takes the resolved alerts out of the cache. */
    method RemoveResolved(now: Time) returns (deleted: seq<Alert>)
      modifies this`scache
      ensures View() == Removed(old(View()), now)
      ensures forall a :: a in deleted <==>
        exists fp :: fp in old(scache) && Removes(old(View()), now, fp) && old(scache)[fp] == a
    {
      deleted := [];
      var todo := scache.Keys;
      while todo != {}
        invariant todo <= scache.Keys <= old(scache).Keys
        invariant forall fp :: fp in scache ==> scache[fp] == old(scache)[fp]
        invariant forall fp :: fp in old(scache) && fp !in todo ==> (fp in scache <==> !Removes(old(View()), now, fp))
        invariant forall a :: a in deleted <==> exists fp :: fp in old(scache) && fp !in scache && old(scache)[fp] == a
        decreases |todo|
      {
        var fp: Fingerprint :| fp in todo;
        todo := todo - {fp};
        if ResolvedAt(scache[fp], now) {
          deleted := deleted + [scache[fp]];
          scache := scache - {fp};
        }
      }
    }

    /** One collection of the cache and the callback that follows it, undisturbed. */
    method CollectGarbage(now: Time) returns (deleted: seq<Alert>)
      modifies this
      ensures forall a :: a in deleted <==>
        exists fp :: fp in old(scache) && Removes(old(View()), now, fp) && old(scache)[fp] == a
      ensures View() == WithoutKeys(env, rule, Removed(old(View()), now), deleted)
    {
      deleted := RemoveResolved(now);
      DropEntries(deleted);
    }
  }

  lemma KeyAmongSnoc(env: Env, rule: Rule, alerts: seq<Alert>, i: nat, key: Fingerprint)
    requires i < |alerts|
    ensures KeyAmong(env, rule, alerts[..i + 1], key)
       <==> KeyAmong(env, rule, alerts[..i], key) || KeyOf(env, rule, alerts[i].labels) == key
  {
    assert alerts[..i + 1] == alerts[..i] + [alerts[i]];
  }

  class Inhibitor {
    const rules: seq<InhibitRule>

    constructor (rules: seq<InhibitRule>)
      ensures this.rules == rules
    {
      this.rules := rules;
    }

    /** Every rule takes the alert. */
    method ProcessAlert(a: Alert)
      requires NoDuplicates(rules)
      modifies rules
      ensures forall i :: 0 <= i < |rules| ==>
        rules[i].View() == Process(rules[i].env, rules[i].rule, old(rules[i].View()), a)
    {
      for n := 0 to |rules|
        invariant forall i :: 0 <= i < n ==>
          rules[i].View() == Process(rules[i].env, rules[i].rule, old(rules[i].View()), a)
        invariant forall i :: n <= i < |rules| ==> rules[i].View() == old(rules[i].View())
      {
        rules[n].ProcessAlert(a);
      }
    }

    /** A label set is muted exactly when some rule has an inhibitor for it; the one reported is
        that of the first such rule. */
    method Mutes(l: LabelSet, now: Time) returns (source: Option<Alert>)
      ensures source.None? <==>
        forall i :: 0 <= i < |rules| ==> InhibitedBy(rules[i].env, rules[i].rule, rules[i].View(), l, now).None?
      ensures source.Some? ==> exists i ::
        && 0 <= i < |rules|
        && InhibitedBy(rules[i].env, rules[i].rule, rules[i].View(), l, now) == source
        && forall j :: 0 <= j < i ==> InhibitedBy(rules[j].env, rules[j].rule, rules[j].View(), l, now).None?
    {
      for n := 0 to |rules|
        invariant forall i :: 0 <= i < n ==> InhibitedBy(rules[i].env, rules[i].rule, rules[i].View(), l, now).None?
      {
        var r := rules[n];
        if AllMatch(r.env.rx, r.rule.target, l) {
          source := r.HasEqual(l, AllMatch(r.env.rx, r.rule.source, l), now);
          if source.Some? { return; }
        }
      }
      return None;
    }
  }
}
