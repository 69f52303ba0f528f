/**
 What users ask of a recording, and what it then has to contain: the meaning of a
 sequence of operations, apart from files, journals and boxes.
 */
module Script {
  import opened Bytes
  import opened Wrappers
  import opened Metadata
  import opened JournalFormat
  import opened JournalReplay
  import opened MuxTrack
  import opened Mux
  import M = Movie

  /** What a user can ask for, and what the devices make of a sync: `lands` says whether the commit of the journal does. */
  datatype Op =
    | AddTrack(typeCode: u32, name: seq<byte>, flags: u32, timescale: u32, created: u64, modified: u64)
    | AddReference(handle: u32, ref: u32)
    | SetConfig(handle: u32, config: Config)
    | AddTrackMeta(handle: u32, key: Key, value: seq<byte>)
    | AddFileMeta(key: Key, value: seq<byte>)
    | SetCover(kind: u32, data: seq<byte>)
    | AddSample(handle: u32, buffers: seq<seq<byte>>, dts: int, sync: bool)
    | SyncNow(writeTables: bool, lands: bool, fixed: M.Fixed)

  /** The values C allows. */
  ghost predicate Sane(op: Op)
  {
    match op
    case AddTrack(_, _, flags, _, created, modified) => flags < 8 && created < TWO64 - EPOCH_OFFSET && modified < TWO64 - EPOCH_OFFSET
    case SetCover(_, data) => |data| < TWO64
    case AddSample(_, _, dts, _) => -TWO63 <= dts < TWO63
    case _ => true
  }

  // ---------- how much is added ----------

  /** How much an operation can add to the tables. */
  function Weight(op: Op): nat
  {
    if op.AddTrack? || op.AddSample? then 1 else 0
  }

  function Count(ops: seq<Op>): nat
  {
    if ops == [] then 0 else Count(ops[..|ops| - 1]) + Weight(ops[|ops| - 1])
  }

  lemma {:induction false} CountMonotone(ops: seq<Op>, k: nat)
    requires k <= |ops|
    ensures Count(ops[..k]) <= Count(ops)
  {
    if k < |ops| {
      CountMonotone(ops[..|ops| - 1], k);
      assert ops[..|ops| - 1][..k] == ops[..k];
    } else {
      assert ops[..k] == ops;
    }
  }

  lemma CountNext(ops: seq<Op>, k: nat)
    requires k < |ops|
    ensures Count(ops[..k + 1]) == Count(ops[..k]) + Weight(ops[k])
  {
    assert ops[..k + 1][..k] == ops[..k];
  }

  // ---------- what a recording contains ----------

  /** What a track contains; `last` is the time its next sample has to be after, unless it is 0. */
  datatype TrackContent = TrackContent(info: TrackInfo, refs: seq<u32>, config: Config, metas: seq<Meta>,
                                       samples: seq<Sample>, syncs: seq<u32>, payloads: seq<seq<byte>>, last: int)

  /** What a recording contains: its tracks by handle, the metadata of the file and the cover. */
  datatype Content = Content(tracks: seq<TrackContent>, metas: seq<Meta>, cover: Option<(u32, seq<byte>)>)

  const EMPTY := Content([], [], None)

  /** What the media file made of a sample: whether it took all of it, and where. */
  datatype Reply = Reply(taken: bool, at: nat)

  /** The handle of a track there is. */
  predicate Has(c: Content, handle: nat)
  {
    1 <= handle <= |c.tracks|
  }

  function With(c: Content, handle: nat, t: TrackContent): Content
    requires Has(c, handle)
  {
    c.(tracks := c.tracks[handle - 1 := t])
  }

  /** A sample is recorded if it has buffers and comes after the one before; a time of 0 counts as none. */
  predicate Acceptable(c: Content, op: Op)
    requires op.AddSample?
  {
    Has(c, op.handle) && op.buffers != [] && (c.tracks[op.handle - 1].last == 0 || c.tracks[op.handle - 1].last < op.dts)
  }

  /** A track with one more sample; its size and its time are kept in 32 and 64 bits. */
  function Longer(t: TrackContent, data: seq<byte>, at: nat, dts: int, sync: bool): TrackContent
  {
    t.(samples := t.samples + [Sample(|data| % TWO32, at % TWO64, dts % TWO64)],
       syncs := if sync && t.info.kind.Video? then t.syncs + [(|t.samples| + 1) % TWO32] else t.syncs,
       payloads := t.payloads + [data[..Min(|data| % TWO32, |data|)]],
       last := dts)
  }

  function NewTrack(kind: TrackType, op: Op): TrackContent
    requires op.AddTrack? && op.created < TWO64 - EPOCH_OFFSET && op.modified < TWO64 - EPOCH_OFFSET
  {
    TrackContent(TrackInfo(kind, op.name, op.flags, op.timescale, op.created + EPOCH_OFFSET, op.modified + EPOCH_OFFSET),
                 [], InitialConfig(kind), [], [], [], [], 0)
  }

  /** What the recording contains after an operation. */
  ghost function After(c: Content, op: Op, reply: Reply): Content
    requires Sane(op)
  {
    match op
    case AddTrack(code, _, _, timescale, _, _) =>
      if timescale == 0 || TypeFromCode(code).None? then c
      else c.(tracks := c.tracks + [NewTrack(TypeFromCode(code).value, op)])
    case AddReference(handle, ref) =>
      if !Has(c, handle) || ref == 0 || |c.tracks[handle - 1].refs| >= REFS_SIZE / 4 || ref in c.tracks[handle - 1].refs then c
      else With(c, handle, c.tracks[handle - 1].(refs := c.tracks[handle - 1].refs + [ref]))
    case SetConfig(handle, config) =>
      if !Has(c, handle) then c
      else
        var t := c.tracks[handle - 1];
        With(c, handle, t.(config := if Accepts(t.info.kind, config) then Accepted(config) else AfterRefusal(t.info.kind, t.config, config)))
    case AddTrackMeta(handle, key, value) =>
      if !Has(c, handle) || !ValidKey(key) then c
      else With(c, handle, c.tracks[handle - 1].(metas := Add(c.tracks[handle - 1].metas, key, value, true)))
    case AddFileMeta(key, value) =>
      if ValidKey(key) then c.(metas := Add(c.metas, key, value, true)) else c
    case SetCover(kind, data) =>
      if kind != 0 && data != [] then c.(cover := Some((kind, data))) else c
    case AddSample(handle, buffers, dts, sync) =>
      if !Acceptable(c, op) || !reply.taken then c
      else With(c, handle, Longer(c.tracks[handle - 1], Flatten(buffers), reply.at, dts, sync))
    case SyncNow(_, _, _) => c
  }

  lemma AfterSample(c: Content, op: Op, reply: Reply)
    requires Sane(op) && op.AddSample?
    ensures Has(c, op.handle) && reply.taken && Acceptable(c, op) ==>
              After(c, op, reply) == With(c, op.handle, Longer(c.tracks[op.handle - 1], Flatten(op.buffers), reply.at, op.dts, op.sync))
    ensures !reply.taken || !Acceptable(c, op) ==> After(c, op, reply) == c
  {
    hide Flatten, Longer;
  }

  /** What it contains after all of these operations. */
  ghost function Final(ops: seq<Op>, replies: seq<Reply>): Content
    requires |replies| == |ops| && forall i :: 0 <= i < |ops| ==> Sane(ops[i])
  {
    if ops == [] then EMPTY
    else
      var k := |ops| - 1;
      After(Final(ops[..k], replies[..k]), ops[k], replies[k])
  }

  lemma FinalNext(ops: seq<Op>, replies: seq<Reply>, k: nat, reply: Reply)
    requires k < |ops| && |replies| == k && forall i :: 0 <= i < |ops| ==> Sane(ops[i])
    ensures Final(ops[..k + 1], replies + [reply]) == After(Final(ops[..k], replies), ops[k], reply)
  {
    hide Sane, After;
    assert ops[..k + 1][..k] == ops[..k] && (replies + [reply])[..k] == replies;
  }

  // ---------- a configuration lasts until the next ----------

  /** This operation configures the track. */
  predicate Configures(op: Op, handle: u32)
  {
    op.SetConfig? && op.handle == handle
  }

  lemma AfterOther(c: Content, op: Op, reply: Reply, handle: u32)
    requires Sane(op) && Has(c, handle) && !Configures(op, handle)
    ensures Has(After(c, op, reply), handle) && After(c, op, reply).tracks[handle - 1].config == c.tracks[handle - 1].config
  {
    hide Add, ValidKey, Flatten, Accepts, Accepted, AfterRefusal, Sane;
  }

  /** An accepted configuration is that of the track until the next operation that configures it. */
  lemma {:induction false} ConfigLasts(ops: seq<Op>, replies: seq<Reply>, k: nat)
    requires |replies| == |ops| && k < |ops| && forall i :: 0 <= i < |ops| ==> Sane(ops[i])
    requires ops[k].SetConfig? && Has(Final(ops[..k], replies[..k]), ops[k].handle)
    requires Accepts(Final(ops[..k], replies[..k]).tracks[ops[k].handle - 1].info.kind, ops[k].config)
    requires forall j :: k < j < |ops| ==> !Configures(ops[j], ops[k].handle)
    ensures var c, handle, given := Final(ops, replies), ops[k].handle, ops[k].config;
            && Has(c, handle) && ConfigGiven(c.tracks[handle - 1].config, given)
            && ((given.Aac? ==> |given.asc| < TWO32) ==> c.tracks[handle - 1].config == given)
  {
    hide Sane, Accepts, Accepted, ConfigGiven, Final;
    var n := |ops| - 1;
    FinalLast(ops, replies);
    var before := Final(ops[..n], replies[..n]);
    if k == n {
      AcceptedIsGiven(ops[k].config);
    } else {
      assert ops[..n][..k] == ops[..k] && replies[..n][..k] == replies[..k];
      ConfigLasts(ops[..n], replies[..n], k);
      AfterOther(before, ops[n], replies[n], ops[k].handle);
    }
  }

  lemma FinalLast(ops: seq<Op>, replies: seq<Reply>)
    requires ops != [] && |replies| == |ops| && forall i :: 0 <= i < |ops| ==> Sane(ops[i])
    ensures var n := |ops| - 1; Final(ops, replies) == After(Final(ops[..n], replies[..n]), ops[n], replies[n])
  {
    hide Sane, After;
  }

  // ---------- contents only grow ----------

  /** Nothing that was recorded is lost. */
  predicate Grows(c: Content, d: Content)
  {
    && |c.tracks| <= |d.tracks|
    && forall h :: 0 <= h < |c.tracks| ==> TrackGrows(c.tracks[h], d.tracks[h])
  }

  predicate TrackGrows(c: TrackContent, d: TrackContent)
  {
    c.info == d.info && c.samples <= d.samples && c.syncs <= d.syncs && c.payloads <= d.payloads
  }

  lemma AfterGrows(c: Content, op: Op, reply: Reply)
    requires Sane(op)
    ensures Grows(c, After(c, op, reply))
  {
    hide Add, ValidKey, Flatten, Accepts, AfterRefusal, Sane;
  }

  lemma {:induction false} FinalGrows(ops: seq<Op>, replies: seq<Reply>, k: nat)
    requires |replies| == |ops| && k <= |ops| && forall i :: 0 <= i < |ops| ==> Sane(ops[i])
    ensures Grows(Final(ops[..k], replies[..k]), Final(ops, replies))
  {
    hide Sane, After;
    if k < |ops| {
      var n := |ops| - 1;
      FinalGrows(ops[..n], replies[..n], k);
      assert ops[..n][..k] == ops[..k] && replies[..n][..k] == replies[..k];
      AfterGrows(Final(ops[..n], replies[..n]), ops[n], replies[n]);
    } else {
      assert ops[..k] == ops && replies[..k] == replies;
    }
  }

  /** Every sample has its bytes, as many as its size says. */
  predicate Whole(c: Content)
  {
    forall h :: 0 <= h < |c.tracks| ==> WholeTrack(c.tracks[h])
  }

  predicate WholeTrack(t: TrackContent)
  {
    && |t.payloads| == |t.samples| && |t.syncs| <= |t.samples|
    && forall i :: 0 <= i < |t.samples| ==> |t.payloads[i]| == t.samples[i].size
  }

  lemma AfterWhole(c: Content, op: Op, reply: Reply)
    requires Sane(op) && Whole(c)
    ensures Whole(After(c, op, reply))
  {
    hide Add, ValidKey, Flatten, Accepts, AfterRefusal, Sane;
  }

  /** There are as many tracks and samples as were added, at the most. */
  lemma {:induction false} FinalWhole(ops: seq<Op>, replies: seq<Reply>)
    requires |replies| == |ops| && forall i :: 0 <= i < |ops| ==> Sane(ops[i])
    ensures Whole(Final(ops, replies))
  {
    hide Sane, After;
    if ops != [] {
      var n := |ops| - 1;
      FinalWhole(ops[..n], replies[..n]);
      AfterWhole(Final(ops[..n], replies[..n]), ops[n], replies[n]);
    }
  }

  // ---------- what never exceeds the limits of the reader of the journal ----------

  /** The parts of a configuration are at most ten million bytes long. */
  predicate SmallConfig(c: Config)
  {
    match c
    case Avc(sps, pps, _, _) => |sps| <= MAX_ALLOC_SIZE && |pps| <= MAX_ALLOC_SIZE
    case Hevc(sps, pps, vps, _, _) => |sps| <= MAX_ALLOC_SIZE && |pps| <= MAX_ALLOC_SIZE && |vps| <= MAX_ALLOC_SIZE
    case Aac(_, asc, _, _, _) => |asc| <= MAX_ALLOC_SIZE
    case _ => true
  }

  /** An operation whose keys, configurations and covers the reader of the journal accepts. */
  predicate Modest(op: Op)
  {
    match op
    case SetConfig(_, c) => SmallConfig(c)
    case AddTrackMeta(_, key, _) => |key| < NAME_MAX
    case AddFileMeta(key, _) => |key| < NAME_MAX
    case SetCover(_, data) => |data| <= MAX_ALLOC_SIZE
    case _ => true
  }

  /** What the keys, the configurations and the cover are then. */
  predicate ModestContent(c: Content)
  {
    && AllShort(c.metas) && (c.cover.Some? ==> |c.cover.value.1| <= MAX_ALLOC_SIZE)
    && forall h :: 0 <= h < |c.tracks| ==> AllShort(c.tracks[h].metas) && SmallConfig(c.tracks[h].config)
  }

  lemma AlternateShort(key: Key)
    ensures Alternate(key).Some? ==> |Alternate(key).value| < NAME_MAX
  {
    hide Ascii, Alternates;
    AlternatesShort();
    AlternateFromShort(Alternates(), key, 0);
  }

  lemma AlternatesShort()
    ensures forall i :: 0 <= i < |Alternates()| ==> |Alternates()[i].0| < NAME_MAX && |Alternates()[i].1| < NAME_MAX
  {
    hide BE32;
    forall i | 0 <= i < |Alternates()| ensures |Alternates()[i].0| < NAME_MAX && |Alternates()[i].1| < NAME_MAX {
      assert |NAMES[i]| <= 16;
    }
  }

  lemma {:induction false} AlternateFromShort(table: seq<(Key, Key)>, key: Key, i: nat)
    requires i <= |table| && forall j :: 0 <= j < |table| ==> |table[j].0| < NAME_MAX && |table[j].1| < NAME_MAX
    ensures AlternateFrom(table, key, i).Some? ==> |AlternateFrom(table, key, i).value| < NAME_MAX
    decreases |table| - i
  {
    if i < |table| { AlternateFromShort(table, key, i + 1); }
  }

  /** Adding a short key leaves all keys short. */
  lemma AddShort(ms: seq<Meta>, key: Key, value: seq<byte>)
    requires AllShort(ms) && |key| < NAME_MAX && ValidKey(key)
    ensures AllShort(Add(ms, key, value, true))
  {
    hide Alternate, IndexOf, ValidKey;
    AlternateShort(key);
    if Alternate(key).Some? { AlternateShort(Alternate(key).value); }
  }

  /** Modest operations leave a modest recording. */
  lemma AfterModest(c: Content, op: Op, reply: Reply)
    requires Sane(op) && ModestContent(c) && Modest(op)
    ensures ModestContent(After(c, op, reply))
  {
    hide Add, ValidKey, Flatten, Accepts, AllShort, Sane;
    EmptyShort();
    if op.AddFileMeta? && ValidKey(op.key) { AddShort(c.metas, op.key, op.value); }
    if op.AddTrackMeta? && Has(c, op.handle) && ValidKey(op.key) { AddShort(c.tracks[op.handle - 1].metas, op.key, op.value); }
  }

  lemma EmptyShort()
    ensures AllShort([])
  {
  }
}
