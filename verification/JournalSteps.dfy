/**
 Between two syncs the live tables run ahead of the journal: what each operation
 does to a track keeps the recovered track in step with it.
 */
module JournalSteps {
  import opened Bytes
  import opened Wrappers
  import opened TimeTable
  import opened Metadata
  import opened JournalFormat
  import opened JournalReplay

  /** A new track is in step with a journal that has not seen it. */
  lemma NewInStep(s: TrackState, log: Log)
    requires s.handle > |log.tracks| && s.samples == [] && s.chunks == [] && s.refs == [] && s.metas == []
    requires !s.infoWritten && s.written == Written(0, 0, 0, 0, 0) && s.metaWritten == 0
    requires GoodInfo(ClipInfo(s.info)) && s.chunkMap == ONE_PER_CHUNK
    ensures InStep(s, log)
  {
  }

  lemma AppendInStep(s: TrackState, log: Log, x: Sample, isSync: bool)
    requires InStep(s, log) && |s.samples| < TWO32 - 1
    ensures InStep(s.(samples := s.samples + [x], chunks := s.chunks + [x.offset],
                      syncs := s.syncs + (if isSync then [|s.samples| + 1] else [])), log)
  {
    hide GoodMetas, GoodInfo, UpTo, RefBytes, ClipInfo, ClipMetas;
  }

  /** Another reference: the description is to be written again. */
  lemma ReferenceInStep(s: TrackState, log: Log, ref: u32)
    requires InStep(s, log) && |s.refs| < REFS_SIZE / 4
    ensures InStep(s.(refs := s.refs + [ref], infoWritten := false), log)
  {
    hide GoodMetas, GoodInfo, UpTo, RefBytes, ClipInfo, ClipMetas;
  }

  lemma ConfigInStep(s: TrackState, log: Log, config: Config)
    requires InStep(s, log)
    ensures InStep(s.(config := config), log)
  {
    hide GoodMetas, GoodInfo, UpTo, RefBytes, ClipInfo, ClipMetas;
  }

  /** A recomputed time table still has everything that was journalled of the one before. */
  lemma TimesInStep(s: TrackState, log: Log, times: seq<TtsEntry>)
    requires InStep(s, log) && |times| >= s.written.times
    ensures InStep(s.(times := times), log)
  {
    hide GoodMetas, GoodInfo, UpTo, RefBytes, ClipInfo, ClipMetas;
  }

  // ---------- metadata ----------

  /** The keys of a list after an addition: the old ones, then the key and its alternate when they are new. */
  lemma AddKeys(ms: seq<Meta>, key: Key, value: seq<byte>)
    requires Paired(ms) && ValidKey(key)
    ensures var r := Add(ms, key, value, true);
            && |r| >= |ms|
            && (forall i :: |ms| <= i < |r| ==> ValidKey(r[i].key))
            && (forall i :: 0 <= i < |ms| ==> r[i] == if i == IndexOf(ms, key) then Meta(key, value) else ms[i])
  {
    hide Alternate, IndexOf, ValidKey;
    AlternateValid(key);
    AddKeepsPairs(ms, key, value);
    if IndexOf(ms, key) < |ms| {
      AlternateInvolutive(key);
      var l := SetValue(ms, key, value);
      if Alternate(key).Some? {
        MateIndex(ms, IndexOf(ms, key), Alternate(key).value);
        assert l[IndexOf(ms, Alternate(key).value)].key == Alternate(key).value;
        assert IndexOf(l, Alternate(key).value) < |l|;
      }
    }
  }

  lemma AddKeepsGood(ms: seq<Meta>, written: nat, key: Key, value: seq<byte>)
    requires GoodMetas(ms, written) && written <= |ms| + 1 && ValidKey(key)
    ensures var r := Add(ms, key, value, true);
            && |r| >= |ms| && GoodMetas(r, written) && GoodMetas(r, 0)
            && FirstUnwritten(written, |r|) == FirstUnwritten(written, |ms|)
  {
    hide Alternate, IndexOf, ValidKey, Add, HasMate;
    AddKeys(ms, key, value);
    AddKeepsPairs(ms, key, value);
    var r := Add(ms, key, value, true);
    forall i | 0 <= i < |r| ensures ValidKey(r[i].key) {
      if i < |ms| { assert r[i].key == ms[i].key; }
    }
  }

  lemma ClipBoundary(ms: seq<Meta>, k: nat)
    requires Boundary(ms, k)
    ensures Boundary(ClipMetas(ms), k)
  {
    hide Alternate;
    var cs := ClipMetas(ms);
    if 0 < k < |ms| && Mates(cs, k - 1, k) {
      AlternateValid(cs[k - 1].key);
      EmptyKeyInvalid();
      AlternateInvolutive(cs[k - 1].key);
      AlternateValid(cs[k].key);
    }
  }

  /** The clipped list and the list have the same boundaries as far as the journal can tell. */
  lemma BoundaryKept(ms: seq<Meta>, r: seq<Meta>, k: nat)
    requires Paired(ms) && Paired(r) && |r| >= |ms|
    requires forall i :: 0 <= i < |ms| ==> r[i].key == ms[i].key
    requires |r| > |ms| ==> Boundary(r, |ms|)
    requires k <= |ms| && Boundary(ClipMetas(ms), k)
    ensures Boundary(ClipMetas(r), k)
  {
    hide Alternate, Paired;
    if k == |ms| {
      if |r| > |ms| { ClipBoundary(r, k); }
    } else {
      assert ClipMetas(r)[k].key == ClipMetas(ms)[k].key;
      assert k > 0 ==> ClipMetas(r)[k - 1].key == ClipMetas(ms)[k - 1].key;
    }
  }

  /** What was recovered of the list is still up to date with the list after an addition, for the entries not overridden. */
  lemma AddKeepsUpTo(c: seq<Meta>, ms: seq<Meta>, s: nat, key: Key, value: seq<byte>, s': nat)
    requires Paired(ms) && ValidKey(key) && UpTo(c, ClipMetas(ms), s)
    requires s' <= s && s' <= IndexOf(ms, key)
    ensures UpTo(c, ClipMetas(Add(ms, key, value, true)), s')
  {
    hide Alternate, IndexOf, ValidKey, Add, Paired, Mates;
    AddKeys(ms, key, value);
    AddKeepsPairs(ms, key, value);
    var r := Add(ms, key, value, true);
    if |r| > |ms| { assert IndexOf(ms, key) == |ms|; }
    BoundaryKept(ms, r, |c|);
    assert forall i :: 0 <= i < |ms| ==> ClipMetas(r)[i].key == ClipMetas(ms)[i].key;
    forall i | 0 <= i < s' ensures c[i] == ClipMetas(r)[i] {
      assert r[i] == ms[i];
    }
  }

  /** A user's key on a track: an override makes the next sync write the whole list again. */
  lemma MetaInStep(s: TrackState, log: Log, key: Key, value: seq<byte>)
    requires InStep(s, log) && ValidKey(key) && s.metaWritten <= |s.metas| + 1
    ensures InStep(s.(metas := Add(s.metas, key, value, true),
                      metaWritten := if IndexOf(s.metas, key) < |s.metas| then 0 else s.metaWritten), log)
  {
    hide GoodInfo, UpTo, RefBytes, ClipInfo, ClipMetas, Add, ValidKey, Paired, IndexOf;
    AddKeepsGood(s.metas, s.metaWritten, key, value);
    if s.handle <= |log.tracks| {
      var found := IndexOf(s.metas, key) < |s.metas|;
      var k := FirstUnwritten(s.metaWritten, |s.metas|);
      AddKeepsUpTo(log.tracks[s.handle - 1].metas, s.metas, k, key, value, if found then 0 else k);
    }
  }

  /** A user's key on the file: an override of an entry already written is never written again. */
  lemma FileMetaInStep(ms: seq<Meta>, written: nat, stale: bool, log: Log, key: Key, value: seq<byte>)
    requires FileMetasInStep(ms, written, stale, log) && ValidKey(key) && written <= |ms| + 1
    ensures FileMetasInStep(Add(ms, key, value, true), written, stale || IndexOf(ms, key) < FirstUnwritten(written, |ms|), log)
  {
    hide UpTo, ClipMetas, Add, ValidKey, Paired, IndexOf;
    AddKeepsGood(ms, written, key, value);
    var k := FirstUnwritten(written, |ms|);
    if !stale && k <= IndexOf(ms, key) {
      AddKeepsUpTo(log.metas, ms, k, key, value, k);
    }
  }
}
