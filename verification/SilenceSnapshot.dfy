/** Writing and reading the silences as a list of records, with the matcher field that older
    versions read. */
module SilenceSnapshot {
  import opened Basics
  import opened Labels
  import opened SilenceStore

  /** A record on the wire; `matchers` is the field of older versions. */
  datatype Wire = Wire(silence: Silence, matchers: seq<Matcher>, expiresAt: Time)

  /** The first matcher set is copied to the old field. */
  function Prepared(e: MeshSilence): Wire {
    Wire(e.silence, if e.silence.matcherSets != [] then e.silence.matcherSets[0] else [], e.expiresAt)
  }

  /** Matchers found only in the old field become the one matcher set. */
  function Postprocessed(w: Wire): MeshSilence {
    MeshSilence(
      if w.silence.matcherSets == [] && w.matchers != [] then w.silence.(matcherSets := [w.matchers]) else w.silence,
      w.expiresAt)
  }

  /** What the records give when read one after the other; None for a record without a silence. */
  function Decoded(records: seq<Option<Wire>>): Option<map<Id, MeshSilence>> {
    if records == [] then Some(map[])
    else
      var before, last := Decoded(records[..|records| - 1]), records[|records| - 1];
      if before.None? || last.None? then None
      else Some(before.value[last.value.silence.id := Postprocessed(last.value)])
  }

  method DecodeState(records: seq<Option<Wire>>) returns (st: Option<map<Id, MeshSilence>>)
    ensures st == Decoded(records)
  {
    var m := map[];
    for i := 0 to |records|
      invariant Decoded(records[..i]) == Some(m)
    {
      assert records[..i + 1][..i] == records[..i];
      if records[i].None? {
        DecodedPrefix(records, i + 1);
        return None;
      }
      m := m[records[i].value.silence.id := Postprocessed(records[i].value)];
    }
    assert records[..|records|] == records;
    return Some(m);
  }

  /** Silences are stored under their IDs. */
  lemma {:induction false} DecodedIds(records: seq<Option<Wire>>)
    requires Decoded(records).Some?
    ensures forall id :: id in Decoded(records).value ==> Decoded(records).value[id].silence.id == id
  {
    if records != [] { DecodedIds(records[..|records| - 1]); }
  }

  lemma {:induction false} DecodedPrefix(records: seq<Option<Wire>>, i: nat)
    requires i <= |records| && Decoded(records[..i]) == None
    ensures Decoded(records) == None
    decreases |records|
  {
    if i == |records| {
      assert records[..i] == records;
    } else {
      var before := records[..|records| - 1];
      assert before[..i] == records[..i];
      DecodedPrefix(before, i);
    }
  }

  /** Writes every silence once, in any order; reading the records gives the same state back. */
  method MarshalBinary(st: map<Id, MeshSilence>) returns (records: seq<Option<Wire>>)
    requires forall id :: id in st ==> st[id].silence.id == id
    ensures Decoded(records) == Some(st)
    ensures |records| == |st|
  {
    records := [];
    var todo := st.Keys;
    while todo != {}
      invariant todo <= st.Keys && |records| + |todo| == |st.Keys|
      invariant Decoded(records).Some? && Decoded(records).value == st - todo
      decreases |todo|
    {
      var id: Id :| id in todo;
      ghost var before := records;
      records := records + [Some(Prepared(st[id]))];
      assert records[..|records| - 1] == before;
      assert Postprocessed(Prepared(st[id])) == st[id];
      todo := todo - {id};
    }
    assert Decoded(records).value == st;
  }

  /** A record of an older version, with matchers in the old field only, reads as one matcher
      set that matches the same label sets; and what an older version reads from the old field
      of a new record is its first matcher set, the only one of a silence with one. */
  lemma OldAndNewFieldsAgree(rx: Regexes, s: Silence, ms: seq<Matcher>, expiresAt: Time, l: LabelSet)
    requires s.matcherSets == [] && ms != []
    ensures var read := Postprocessed(Wire(s, ms, expiresAt)).silence;
      && (AnySetMatches(rx, read.matcherSets, l) <==> AllMatch(rx, ms, l))
      && read == s.(matcherSets := read.matcherSets)
      && Prepared(MeshSilence(read, expiresAt)).matchers == ms
  {
    var read := Postprocessed(Wire(s, ms, expiresAt)).silence;
    if AllMatch(rx, ms, l) { assert AllMatch(rx, read.matcherSets[0], l); }
  }
}
