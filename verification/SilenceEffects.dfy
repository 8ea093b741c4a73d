/** What a Set or an Expire that reports success has done. Both write through the
    last-writer-wins merge, which drops a version that is not newer than the stored one. */
module SilenceEffects {
  import opened Basics
  import opened Labels
  import opened SilenceStore
  import opened SilenceCache
  import opened SilenceRuns
  import opened SilenceHistory

  // ---------------------------------------------------------------- what Set answers

  /** When the silence begins as far as validation goes. */
  function GivenStart(sil: Silence, now: Time): Time { if IsZero(sil.startsAt) then now else sil.startsAt }

  /** Every matcher has a valid name and a valid value or pattern, and not all of them are equality or
      regular expression matchers that accept the empty value. */
  predicate IsValidSet(cfg: Config, ms: seq<Matcher>) {
    && (forall m :: m in ms ==>
          && cfg.validName(m.name)
          && (m.ty in {MatchEqual, MatchNotEqual} ==> cfg.validValue(m.value))
          && (m.ty in {MatchRegexp, MatchNotRegexp} ==> cfg.rx.compiles(m.value)))
    && (exists m :: m in ms && !(m.ty == MatchEqual && m.value == "")
                    && !(m.ty == MatchRegexp && cfg.rx.matches(m.value, "")))
  }

  /** Matching the empty string does not depend on anchoring. */
  ghost predicate EmptyAlike(rx: Regexes) {
    forall pattern :: rx.matches(pattern, "") <==> rx.matches(Anchored(pattern), "")
  }

  /** A valid set of equality and regular expression matchers does not match an alert without labels;
      with a negative matcher it may. */
  lemma ValidSetNeedsALabel(cfg: Config, ms: seq<Matcher>)
    requires EmptyAlike(cfg.rx) && IsValidSet(cfg, ms) && AllMatch(cfg.rx, ms, map[])
    ensures exists m :: m in ms && m.ty in {MatchNotEqual, MatchNotRegexp}
  {
    var m :| m in ms && !(m.ty == MatchEqual && m.value == "")
      && !(m.ty == MatchRegexp && cfg.rx.matches(m.value, ""));
    var i :| 0 <= i < |ms| && ms[i] == m;
    assert MatcherMatches(cfg.rx, ms[i], Lookup(map[], ms[i].name));
  }

  lemma NegativeSetMatchesAnything(cfg: Config) returns (ms: seq<Matcher>)
    requires cfg.validName("job") && cfg.validValue("api")
    ensures IsValidSet(cfg, ms) && AllMatch(cfg.rx, ms, map[])
  {
    ms := [Matcher(MatchNotEqual, "job", "api")];
    assert ms[0] in ms;
  }

  predicate IsValid(cfg: Config, sil: Silence, now: Time) {
    && sil.matcherSets != [] && (forall ms :: ms in sil.matcherSets ==> IsValidSet(cfg, ms))
    && !IsZero(GivenStart(sil, now)) && !IsZero(sil.endsAt) && GivenStart(sil, now) <= sil.endsAt
  }

  /** The stored silence can become the given one: the matchers are the same, and it is active, keeps
      its start to the second and does not end in the past, or neither of them has begun. */
  predicate IsUpdate(s: Store, sil: Silence, now: Time) {
    && sil.id in s.st && s.st[sil.id].silence.matcherSets == sil.matcherSets
    && var a, start := s.st[sil.id].silence, GivenStart(sil, now);
       || (a.startsAt <= now <= a.endsAt && now <= sil.endsAt
           && a.startsAt / 1_000_000_000 == start / 1_000_000_000)
       || (now < a.startsAt && now <= start)
  }

  /** What an update, or a creation, would store. */
  function Updated(cfg: Config, sil: Silence, now: Time): MeshSilence {
    MeshSilence(Silence(sil.id, sil.matcherSets, GivenStart(sil, now), sil.endsAt, now), sil.endsAt + cfg.retention)
  }

  function Created(cfg: Config, sil: Silence, uid: Id, now: Time): MeshSilence {
    var start := if IsZero(sil.startsAt) || sil.startsAt < now then now else sil.startsAt;
    MeshSilence(Silence(uid, sil.matcherSets, start, sil.endsAt, now), sil.endsAt + cfg.retention)
  }

  function Answer(cfg: Config, s: Store, sil: Silence, uid: Id, now: Time): SetOutcome {
    SetAnswer(cfg, s, WithStart(sil, now), uid, now)
  }

  /** Each answer of Set, with the condition on the store and the given silence for it; all but one
      leave the store alone. */
  lemma SetAnswersExactly(cfg: Config, s: Store, sil: Silence, uid: Id, now: Time, now2: Time, now3: Time)
    ensures var answer, known := Answer(cfg, s, sil, uid, now), sil.id == "" || sil.id in s.st;
      var update := IsUpdate(s, sil, now);
      && (answer == InvalidSilence <==> !IsValid(cfg, sil, now))
      && (answer == NotFound <==> IsValid(cfg, sil, now) && !known)
      && (answer == TooManySilences <==>
            IsValid(cfg, sil, now) && known && !update && 0 < cfg.maxSilences <= |s.st|)
      && (answer == TooLarge <==>
            && IsValid(cfg, sil, now) && known && (update || !(0 < cfg.maxSilences <= |s.st|))
            && 0 < cfg.maxSize < cfg.size(if update then Updated(cfg, sil, now) else Created(cfg, sil, uid, now)))
    ensures UpdatesInPlace(cfg, s, sil, uid, now) <==> Answer(cfg, s, sil, uid, now).Stored? && IsUpdate(s, sil, now)
    ensures !Answer(cfg, s, sil, uid, now).Stored? ==> Set(cfg, s, sil, uid, now, now2, now3) == s
  {
    ValidAlike(cfg, sil, now);
  }

  lemma ValidAlike(cfg: Config, sil: Silence, now: Time)
    ensures ValidSilence(cfg, WithStart(sil, now)) <==> IsValid(cfg, sil, now)
  {
    forall i | 0 <= i < |sil.matcherSets|
      ensures ValidMatcherSet(cfg, sil.matcherSets[i]) <==> IsValidSet(cfg, sil.matcherSets[i])
    {
      ValidSetAlike(cfg, sil.matcherSets[i]);
    }
  }

  lemma ValidSetAlike(cfg: Config, ms: seq<Matcher>)
    ensures ValidMatcherSet(cfg, ms) <==> IsValidSet(cfg, ms)
  {
    if ValidMatcherSet(cfg, ms) {
      forall m | m in ms ensures ValidMatcher(cfg, m) {
        var i :| 0 <= i < |ms| && ms[i] == m;
      }
      var i :| 0 <= i < |ms| && !MatchesEmpty(cfg, ms[i]);
      assert ms[i] in ms;
    }
    if IsValidSet(cfg, ms) {
      var m :| m in ms && !(m.ty == MatchEqual && m.value == "")
        && !(m.ty == MatchRegexp && cfg.rx.matches(m.value, ""));
      var i :| 0 <= i < |ms| && ms[i] == m;
      assert !MatchesEmpty(cfg, ms[i]);
    }
  }

  // ---------------------------------------------------------------- what it does

  /** A successful update in place stores the given silence, with the time of the update, if and
      only if the stored version is older than the clock, or is that silence already. */
  lemma UpdateTakesEffectIff(cfg: Config, s: Store, sil: Silence, uid: Id, now: Time, now2: Time, now3: Time)
    requires UpdatesInPlace(cfg, s, sil, uid, now) && 0 <= cfg.retention
    ensures var updated, s' := Updated(cfg, sil, now).silence, Set(cfg, s, sil, uid, now, now2, now3);
      && sil.id in s'.st
      && (s'.st[sil.id].silence == updated
          <==> s.st[sil.id].silence.updatedAt < now || s.st[sil.id].silence == updated)
  {
  }

  /** A successful Set that creates a silence stores it under its new ID if and only if its end plus
      the retention is not past, with the given matchers and end, updated now, and beginning when
      given, but not in the past. */
  lemma CreationTakesEffectIff(cfg: Config, s: Store, sil: Silence, uid: Id, now: Time, now2: Time, now3: Time)
    requires Answer(cfg, s, sil, uid, now).Stored? && !UpdatesInPlace(cfg, s, sil, uid, now)
    requires uid !in s.st
    requires sil.id in s.st ==> s.st[sil.id].silence.id == sil.id
    ensures uid in Set(cfg, s, sil, uid, now, now2, now3).st <==> now <= sil.endsAt + cfg.retention
    ensures uid in Set(cfg, s, sil, uid, now, now2, now3).st ==>
              Set(cfg, s, sil, uid, now, now2, now3).st[uid] == Created(cfg, sil, uid, now)
  {
  }

  /** The new silence is in effect exactly from its start to its end, and never before it was made. */
  lemma CreatedIsScheduled(
      cfg: Config, s: Store, sil: Silence, uid: Id, now: Time, now2: Time, now3: Time, l: LabelSet, t: Time)
    requires Answer(cfg, s, sil, uid, now).Stored? && !UpdatesInPlace(cfg, s, sil, uid, now)
    requires uid !in s.st && now <= sil.endsAt + cfg.retention
    requires sil.id in s.st ==> s.st[sil.id].silence.id == sil.id
    ensures uid in FullScan(cfg, Set(cfg, s, sil, uid, now, now2, now3), l, t) <==>
      && AnySetMatches(cfg.rx, sil.matcherSets, l) && now <= t <= sil.endsAt
      && (IsZero(sil.startsAt) || sil.startsAt <= t)
  {
    CreationTakesEffectIff(cfg, s, sil, uid, now, now2, now3);
  }

  /** From `now` on the silence is over. */
  ghost predicate IsOverAfter(s: Store, id: Id, now: Time) {
    id in s.st && forall t :: now < t ==> GetState(s.st[id].silence, t).Expired?
  }

  /** A successful Expire leaves the silence over if and only if it ended by itself or the stored
      version is older than the clock. */
  lemma ExpireTakesEffectIff(cfg: Config, s: Store, id: Id, now: Time)
    requires id in s.st && s.st[id].silence.id == id && s.st[id].silence.startsAt <= s.st[id].silence.endsAt
    requires 0 <= cfg.retention
    ensures IsOverAfter(Expire(cfg, s, id, now), id, now)
       <==> s.st[id].silence.endsAt <= now || s.st[id].silence.updatedAt < now
  {
    var a, b := s.st[id].silence, Expire(cfg, s, id, now).st[id].silence;
    if !(a.endsAt <= now || a.updatedAt < now) { assert !GetState(b, a.endsAt).Expired?; }
  }

  /** A successful Set that replaces a silence leaves the old one over under the same condition,
      on the clock readings it takes for that. */
  lemma ReplacedIsOverIff(cfg: Config, s: Store, sil: Silence, uid: Id, now: Time, now2: Time, now3: Time)
    requires Answer(cfg, s, sil, uid, now).Stored? && !UpdatesInPlace(cfg, s, sil, uid, now)
    requires sil.id in s.st && sil.id != uid && s.st[sil.id].silence.id == sil.id && now2 <= now3
    requires s.st[sil.id].silence.startsAt <= s.st[sil.id].silence.endsAt && 0 <= cfg.retention
    ensures IsOverAfter(Set(cfg, s, sil, uid, now, now2, now3), sil.id, now3)
       <==> s.st[sil.id].silence.endsAt <= now3 || s.st[sil.id].silence.updatedAt < now3
  {
    ExpireTakesEffectIff(cfg, s, sil.id, now3);
    var s1 := WithoutOld(cfg, s, sil.id, now2, now3);
    assert Set(cfg, s, sil, uid, now, now2, now3).st[sil.id] == s1.st[sil.id];
    if GetState(s.st[sil.id].silence, now2).Expired? {
      assert IsOverAfter(s1, sil.id, now3);
    }
  }

  /** A silence merged from a peer whose clock is ahead. */
  const AHEAD := MeshSilence(Silence("a", MATCHERS, 1, 100, 50), 200)

  /** It cannot be ended for now: Expire finds it, reports success and changes nothing; the alert
      stays silenced. Nor can it be prolonged: Set reports success and changes nothing. */
  lemma AheadIsNotChanged(cfg: Config) returns (s: Store, longer: Silence)
    requires cfg.maxSize <= 0 && cfg.validName("job") && cfg.validValue("api")
    ensures s == MergeEntry(cfg, EMPTY_STORE, AHEAD, 10) && "a" in s.st
    ensures Expire(cfg, s, "a", 20) == s && "a" in FullScan(cfg, Expire(cfg, s, "a", 20), ALERT, 30)
    ensures UpdatesInPlace(cfg, s, longer, "", 20) && longer.endsAt > s.st["a"].silence.endsAt
    ensures Set(cfg, s, longer, "", 20, 20, 20) == s
  {
    s, longer := MergeEntry(cfg, EMPTY_STORE, AHEAD, 10), AHEAD.silence.(endsAt := 150);
    assert AllMatch(cfg.rx, MATCHERS[0], ALERT);
    assert !MatchesEmpty(cfg, MATCHERS[0][0]);
  }
}
