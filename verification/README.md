# libmp4: recording, crash recovery and playback

This project models the three state machines of libmp4 whose agreement matters, over byte
sequences instead of file descriptors, and proves that they agree:

- **Recording.** `MuxTrack`, `Mux`, `MuxSync` and `Recording` keep the muxer's own form: a `Mux` and its
  `Track`s are classes with the tables, counters and metadata of the C structures as fields. `DataFile` is the
  media file, with a position and writes that may take any number of their bytes; `TablesFile` is the
  recovery journal, on a device that stops accepting bytes at any point (`room`) and whose
  8-byte commit lands or does not. `Script` says what a sequence of operations means, apart from all of these.
- **Recovery.** `JournalFormat` and `JournalReplay` define the journal as records and say what replaying
  them means; `JournalWriter` is proved to append exactly the records of a sync, `JournalReader` to replay them,
  and `Recovery` to cut tables and file back to what is left. `CrashSafety` puts the two sides together, and
  `TornDescription` follows one journal that cannot be replayed.
- **Playback.** `BoxTree`, `BoxWriter` and `BoxWalk` write and read boxes, with the boxes of fixed layout in
  `HeaderBoxes` and `HeaderReader`, those of metadata in `TextReader`, and the sample descriptions in `ConfigBytes`,
  `DecoderConfig` and `ConfigReader`; `Movie` and `MovieTexts` build the movie box and say what it tells, and `BoxLayout` says
  where its fields stand, apart from the functions that put it together. `TimeTable`,
  `ChunkMap` and `DemuxTrack` expand the sample tables; `Search`, `DemuxTrack` and `Demux` seek and read;
  `FinalMetadata` and `ChapterReader` make the metadata and the chapters a user sees. `RoundTrip` reads a closed
  recording back, and `Lifecycle` follows one from its first operation to its playback, with a crash and without.

## Main results

1. **A recording contains what was asked for** (`Recording.Record`, `Recording.Step`). For any sequence of
   operations and any device failures, the recording contains exactly what the operations mean; a sample is left out
   only if it is not acceptable or the device did not take all of it. All recorded samples are in the media file byte
   for byte, pairwise disjoint and past the reserved area, each track's offsets only grow, and the replay of the
   committed part of the journal is what the tracks had at the last completed sync. The journal can be replayed if and
   only if every completed sync was within the limits of its reader; that is so whenever keys are shorter than 255
   bytes, configurations and covers are at most 10 million bytes long, and no more than a million tracks and samples are added.
2. **Crash safety** (`CrashSafety.CrashAndRecover`, `Lifecycle.RecordAndRecover`). Stop a run anywhere, keep the
   committed part of the journal with anything after it, and cut the media file at any length: recovery reports nothing to
   recover exactly when no sync completed, and otherwise gives, by track handle, exactly the samples added before the last
   completed sync that are still whole in the file, with their sizes, offsets, times, sync entries, metadata and bytes, in tracks
   with their kind, flags, timescale, dates and name, and the configuration they had when they were last described
   (`Lifecycle.ConfigsAreLeft`). The truncated file ends where the furthest kept sample ends. On a device that takes every byte, whether the recovered
   file gets its movie box follows from what was journalled and the size of the box (`CrashSafety.WrittenWhen`).
3. **Round trip** (`RoundTrip.ReadBack`, `Lifecycle.RecordAndPlay`, `Lifecycle.PlayRecovered`). A recording closed with the
   gap after its movie box filled is read back with every description if and only if the movie has a timescale, no parameter
   set is longer than 65535 bytes, the first step of no track is 2^32-1 ticks, every value under a key or a tag has 1 to 65534
   bytes, and the text of every chapter is in the file, which is so if its samples have at least two bytes
   (`RoundTrip.ChaptersFit`). Every track with samples is then there, in the order of the muxer, with the same number,
   timescale, duration, sizes, offsets, bytes and sync samples, and its times are the recorded ones minus the first exactly when
   every step fits. The movie lasts as long as its longest track. So are the keys and values of the file and of the tracks, the tags the demuxer knows, the location, the
   cover and the chapters (`FinalMetadata.MetadataBack`, `FinalMetadata.CoverBack`, `RoundTrip.ChaptersComeBack`). The same is
   proved from the operations on, of a recording that was recorded and closed, and of one that was recovered after a crash, down
   to the bytes the user had added.
4. **Layout** (`MuxSync.SyncInternal`, `Recording.Close`). After a close that wrote the movie box the top-level boxes tile the
   file, with the movie box in the reserved area or at the end, and the media data in its 32-bit or 64-bit form. On a
   device that takes every byte the outcome of a close is determined: it fails if a reference does not resolve, succeeds without
   a movie box if a configuration cannot be written, and otherwise depends on the size of the box alone.
5. **Seeking** (`Demux.Demuxer.Seek`, `DemuxTrack.Track.SeekFrom`, `DemuxTrack.Track.ReadRun`, `Demux.Demuxer.SeekToNextSample`,
   `RoundTrip.SeekReadBack`). A seek settles in every track on the last sample not after the tick nearest to the time, for every
   interpolated start index; the index only decides between samples of the same time. A run of reads after it is
   silent exactly before the target; frame stepping through microseconds is exact, also on a recording read back.

## What the code does not do, and exactly when

- If the configuration of a track with samples cannot be written (an audio track that never got one, a parameter set of fewer
  than four bytes, a video track without one), the writer of the movie box gives up; unless it runs out of room before that,
  the result of the following fsync replaces the error, and sync and close report success without a movie box
  (src/mp4_mux.c:1246-1256; `MuxSync.UnconfiguredAudio` for an audio track nobody configured, `MuxSync.SyncInternal` for exactly when).
- A track of duration 0, such as every track with a single sample, makes a seek divide by zero (src/mp4_demux.c:386-388;
  `RoundTrip.OneSampleLastsNothing`, `DemuxTrack.Track.Seek`): exactly then.
- A movie timescale of 0 is accepted by the muxer and refused by the demuxer (`HeaderReader.ReadMvhd`).
- An empty metadata value is accepted and written, and makes the demuxer refuse the whole file; a value of 65535 bytes or more
  counts as empty. Only the location may be empty (src/mp4_box_reader.c:2428; `RoundTrip.EmptyValueRefused` for an input,
  `MovieTexts.VisitMetaBoxes` for exactly when).
- Four-byte tags and the location of a track are read into those of the file, and replace those of the tracks before it; the
  demuxer shows them as the file's if the file has none of its own (`FinalMetadata.MetadataBack`).
- A cover is written only beside the four-byte tags of the file, and lost if it has none (`FinalMetadata.CoverBack`).
- The entries of a list of tags are counted before they are read. An entry that says to be shorter than its header leaves
  the position behind where it was, and everything after that is read from the wrong place (src/mp4_box_reader.c:2285; `BoxWalk.Walker.CountEntries`).
- A chapter of fewer than two bytes is read as if it were 4 gigabytes long, so that text after it is taken for its own, or the file is
  refused (src/mp4_track.c:586; `ChapterReader.ShortChapterRefused`).
- A video track that is synced before it has a configuration makes the sync fail, but counts as described from then on. Once it is
  configured, the next sync succeeds and commits the first 16 bytes of its description, with the records of its tables or nothing after
  them; recovery reads what follows as the length of a parameter set, and recovers nothing (src/mp4_recovery_writer.c:558, 282-287;
  `TornDescription.DescribeTooLate`, `TornDescription.ReplayTorn`).
- The run-length loop starts from a previous step of 2^32-1, so leading steps of that length are dropped:
  times survive if and only if every step fits 32 bits and the first is not 2^32-1 (`TimeTable.TimesRoundTrip`).
- Metadata keys of 255 bytes or more are journalled as empty strings, and more than 1000000 new entries in one
  table or configuration blobs of more than 10 million bytes are written but not accepted back. A sync can be replayed if and
  only if none of that happens (`JournalReplay.SyncReplays`); the field `intact` follows this over a run. Since only syncs of
  the tables compute the times again, the new entries of the time table can be more than the samples added since the last sync.
- Track references are journalled by count taken in bytes: they survive if and only if there are none, or
  a single handle below 256 (`JournalReader.RefsSurvive`). Of a single larger handle the lowest byte comes back, which may name
  another track; of several, the last comes back as 0, and the recovered recording cannot be closed (`JournalReader.RefsReturned`).
- The list of references is written once for each reference in it, and the demuxer takes up to ten words for references: it finds
  those written if and only if there is one or there are ten (`HeaderBoxes.ReferencesBack`).
- A refused video configuration has already changed the codec and the size of the picture (`Mux.Mux.SetConfig`).
- An audio description always says two channels of 16 bits, whatever was configured (`ConfigReader.ReadStsd`).
- The duration of the movie is kept in 32 bits.
- A gap of 1 to 7 bytes after the movie box cannot be a box (`FileLayout.FillableWithBoxes`); the writer's refusal
  goes unnoticed, and the gap keeps whatever bytes it had.
- Microseconds and back is the identity on every time if and only if the timescale is at most 1000000
  (`Timescale.UsecRoundTrip`).
- The sample a seek settles on depends on the start index if and only if two samples share its time
  (`Search.SettledDetermined`).
- A last box of 8 bytes is never read by the walk, which is harmless: such a box holds nothing (`BoxWalk.Walker.ReadChildren`).
- A failed write of the cover goes unnoticed and the sync still commits; the tracks and the metadata are
  recovered all the same (`JournalReader.ReplayJournal`).
- Recovery reports the result of closing the file even after a replay that failed, and always reopens with the default
  reserved area, because the header holds megabytes that are divided as if they were bytes.
- The length of the outermost audio descriptor does not count the 3 bytes of the packet header after it; reader and
  writer agree on that.
- avcC and hvcC boxes keep the low 16 bits of the lengths of the parameter sets: they survive if and only if
  all are at most 65535 bytes (`ConfigReader.ReadAvcc`, `ConfigBytes.NotCarried`).

## Model

| member | source | states |
|---|---|---|
| `TimeTable.TimesRoundTrip` | src/mp4_mux.c:208-269 | the run-length entries expand to the times minus the first if and only if every step fits 32 bits and the first is not 2^32-1 |
| `TimeTable.RleExpands` | src/mp4_mux.c:230-257 | what the runs expand to: all the steps but a leading run of 2^32-1 |
| `TimeTable.EntriesCount` | src/mp4_mux.c:230-266 | the entries account for every sample if and only if the first step is not 2^32-1 |
| `TimeTable.EntriesGrow` | src/mp4_recovery_writer.c:472-498 | appending samples never shortens the entries, so the unsigned count of new entries cannot wrap |
| `MuxTrack.Track.ComputeTts` | src/mp4_mux.c:208-269 | the loop computes the run-length form, the duration and the sum of the rounded steps, each in its own width |
| `MuxTrack.Track.Append` | src/mp4_mux.c:1808-1846 | one sample, one chunk and, for a sync sample of a video track, one sync entry are appended; the tables stay consistent |
| `MuxTrack.Track.AddReference` | src/mp4_mux.c:1403-1430 | a reference is kept once, at most ten; a new one makes the description be journalled again; a full list is an error even for a known reference |
| `MuxTrack.Track.AddMeta` | src/mp4_mux.c:1564-1654 | a key is added or overridden with its alternate; an override makes the whole list be journalled again |
| `MuxTrack.Track.SetConfig` | src/mp4_mux.c:377-447 | a configuration is accepted if and only if it is of the kind of the track and nothing in it is empty, and is then the one given, part by part; a refused video configuration has still changed the codec and the size of the picture, and nothing else changes |
| `MuxTrack.AcceptsMeans` | src/mp4_mux.c:377-426 | which configurations each type of track takes, and which of their parts must not be empty |
| `Timescale.UsecRoundTripAt` | include/libmp4.h:813-826 | a sample time survives the trip through microseconds when nothing overflows and the timescale is at most 1000000 |
| `Timescale.UsecRoundTrip` | include/libmp4.h:813-826 | the trip is the identity on all times if and only if the timescale is at most 1000000 |
| `Timescale.UsecToNearest` | include/libmp4.h:813-817 | microseconds become the nearest sample time, the later of two that are equally near, unless the product overflows |
| `Timescale.SampleTimeToNearest` | include/libmp4.h:820-826 | a sample time becomes the nearest number of microseconds in the same way |
| `Timescale.NearestIsOne` | include/libmp4.h:813-836 | at most one tick is the nearest to a time |
| `Timescale.ConvertRounds` | include/libmp4.h:829-836 | a 32-bit step never overflows the 64-bit product and is rounded to the nearest tick |
| `Timescale.MovieDurationError` | src/mp4_mux.c:230-257 | the movie-scale duration is off by at most half a movie tick per step |
| `Timescale.TrackDuration` | src/mp4_mux.c:230-257 | the track duration is the last time minus the first |
| `Timescale.MovieDurationOfTimes` | src/mp4_mux.c:230-257 | on times whose steps fit, the movie duration is within half a tick per step of the exact value |
| `ChunkMap.CountingStep` | src/mp4_track.c:404-419 | one turn of the counting pass adds, modulo 2^32, the samples of the chunks between two entries |
| `ChunkMap.PerChunkBetween` | src/mp4_track.c:404-419 | a chunk between two entries has the count of the first of them |
| `ChunkMap.OnePerChunk` | src/mp4_mux.c:1321-1381 | with the table of every new track, chunk and sample numbers coincide |
| `DemuxTrack.CountSamples` | src/mp4_track.c:404-431 | on any entries the counting pass sums the differences in 32-bit arithmetic; on entries in order and within the chunk table that is, modulo 2^32, the number of samples in all chunks |
| `ChunkMap.CountedSamples` | src/mp4_track.c:404-431 | on entries in order and within the chunk table the 32-bit differences add up to the number of samples, modulo 2^32 |
| `DemuxTrack.FillChunk` | src/mp4_track.c:445-467 | each sample of a chunk is at the offset of the chunk plus the sizes of the earlier samples of that chunk |
| `DemuxTrack.FillOffsets` | src/mp4_track.c:438-468 | the filling pass writes every sample once, in range, at the place the standard gives it |
| `DemuxTrack.CountTimes` | src/mp4_track.c:470-479 | the number of samples the time entries announce, modulo 2^32 |
| `DemuxTrack.FillTimes` | src/mp4_track.c:481-515 | expansion gives the sums of the steps, and fails exactly on too many entries or a 64-bit overflow |
| `DemuxTrack.Track.Build` | src/mp4_track.c:398-515 | expansion succeeds if and only if chunks, sizes and times agree on a non-zero number of samples and the times fit 64 bits; entries out of order are refused when their count does not match |
| `DemuxTrack.Track.BuiltIsValid` | src/mp4_track.c:398-515 | a built track has non-decreasing times from 0 and is ready for seeking |
| `DemuxTrack.Track.IsSyncSample` | src/mp4_track.c:31-57 | the linear search answers membership, and otherwise finds the greatest sync sample before |
| `DemuxTrack.Track.FindExact` | src/mp4_track.c:71-91 | the first eligible sample with that time from the start index on, or none |
| `DemuxTrack.Track.FindNearest` | src/mp4_track.c:95-130 | with its early exit, still a minimiser of the distance over all eligible samples from the start index on |
| `DemuxTrack.Track.FindBackward` | src/mp4_track.c:134-155 | the last eligible sample on the early side of the start index |
| `DemuxTrack.Track.FindForward` | src/mp4_track.c:159-180 | the first eligible sample on the late side of the start index |
| `DemuxTrack.Track.FindSampleByTime` | src/mp4_track.c:183-211 | each comparison meets its declarative search, from the clamped start index |
| `Search.SettledUnique` | src/mp4_demux.c:381-407 | with increasing times exactly one sample is the last not after the target |
| `Search.SettledDetermined` | src/mp4_demux.c:381-407 | the settled sample is the same for every start if and only if no other sample has its time |
| `Search.SettledNeedsDistinctTimes` | src/mp4_demux.c:381-407 | a track with two equal times on which two start indices settle differently |
| `Search.SettledExists` | src/mp4_demux.c:381-407 | such a sample exists as soon as the first time is not after the target |
| `Search.LandsOnPreviousSync` | src/mp4_demux.c:255-314 | previous-sync gives the greatest sync sample at or before the settled one, or the next one if there is none |
| `Search.NoSyncToLandOn` | src/mp4_demux.c:255-314 | with increasing times, previous-sync finds nothing if and only if the track has no sync sample |
| `Search.NearestIsGlobal` | src/mp4_demux.c:255-314 | started from the settled sample, the nearest search minimises over all samples |
| `DemuxTrack.Track.GetSeekSample` | src/mp4_demux.c:255-314 | each seek method picks the sample its description promises |
| `DemuxTrack.Track.SeekFrom` | src/mp4_demux.c:381-410 | from any start index the scans settle on a last sample not after the target and set the pending time exactly when the landing is elsewhere; of several samples of the time that is sought they find the first from the index on |
| `DemuxTrack.Track.Seek` | src/mp4_demux.c:368-424 | the same from the interpolated index, a quotient of wrapping 64-bit arithmetic whose low 32 bits are taken for a signed number; divides by zero if and only if the track has no duration |
| `DemuxTrack.Track.InProportion` | src/mp4_demux.c:386-388 | without wrap-around that index is the number of samples in proportion to the time, rounded up |
| `DemuxTrack.Track.MarkSilent` | src/mp4_demux.c:738-745 | a sample is silent if and only if its time is before that of the seek target |
| `DemuxTrack.Track.GetSample` | src/mp4_demux.c:635-761 | the sample handed out describes the next sample and its neighbours; a failed read changes nothing |
| `DemuxTrack.Track.NearbySyncMeans` | src/mp4_demux.c:635-761 | the times of the nearest sync samples that a sample is handed out with: of the last that is earlier, and of the first that is later, 0 if there is none |
| `DemuxTrack.Track.ReadRun` | src/mp4_demux.c:635-761 | over any sequence of reads, exactly the samples before the seek target are silent, and none after it |
| `Demux.Demuxer.Seek` | src/mp4_demux.c:368-424 | all tracks seek, or those before the first that cannot, or that has no duration; each track sought settles on its last sample not after the tick nearest to the time, unless the product overflows |
| `Demux.Demuxer.SeekHitsSample` | src/mp4_demux.c:764-829 | seeking to the time of a sample, through microseconds, settles on that sample |
| `Demux.Demuxer.SeekToNextSample` | src/mp4_demux.c:793-829 | without resync lands exactly on the sample after the next one and fails exactly at the end; with resync succeeds if and only if every track has a duration and a sync sample; a duration of 0 divides by zero |
| `Demux.Demuxer.SeekToPrevSample` | src/mp4_demux.c:764-790 | makes the sample two back the first non-silent one, starting at the greatest sync sample before it; refused when the second sample is next, and otherwise, with increasing times, succeeds if and only if every track has a duration and a sync sample |
| `BoxTree.WordsRoundTrip` | src/mp4_box_reader.c:1746-2154 | the entry words of each table box read back as the same table, in both widths of chunk offsets |
| `TablesMemory.TablesBuffer.CheckSize` | src/mp4_priv.h:709-734 | back-patching replaces the size field of the box that ends here, and only when it was wrong |
| `BoxWriter.WriteTable` | src/mp4_box_writer.c:1623-1948 | the table boxes are written with a size computed in advance that never needs fixing |
| `BoxWriter.WriteContainer` | src/mp4_box_writer.c:83-117 | the patched size of a container is its extent, and the children tile its content; it gives up when a child does, or when there is no room for what comes before that |
| `BoxWriter.WriteBox` | src/mp4_box_writer.c:52-117 | writing a tree in which no leaf gives up succeeds if and only if its bytes fit, and then appends them; otherwise it gives up where the first such leaf does, or runs out of room before |
| `BoxWriter.WriteFull` | src/mp4_box_writer.c:2215-2280 | the same with version and flags before the children |
| `BoxWriter.WriteHeaderBox` | src/mp4_box_writer.c:123-757 | the header boxes are written with their content and size if they fit; a sample description that cannot be written gives up |
| `BoxLayout.MvhdLayout` | src/mp4_box_writer.c:123-209 | the fields of the movie header, each at its place |
| `BoxLayout.TkhdLayout` | src/mp4_box_writer.c:212-317 | those of a track header: flags, dates, number, duration, volume and size |
| `BoxLayout.MdhdLayout` | src/mp4_box_writer.c:365-423 | those of a media header |
| `BoxLayout.HdlrLayout` | src/mp4_box_writer.c:628-712 | the kind of the media, and the name of the track, or of its kind |
| `BoxLayout.TrefLayout` | src/mp4_box_writer.c:320-361 | the kind and the numbers of the references |
| `BoxLayout.MediaLayout` | src/mp4_box_writer.c:426-625 | what the headers of the media say, by kind |
| `BoxLayout.DrefLayout` | src/mp4_box_writer.c:715-757 | one data reference, to the file itself |
| `BoxLayout.FtypLayout` | src/mp4_box_writer.c:2655-2693 | the brands at the start of a file |
| `BoxLayout.TableLayout` | src/mp4_box_writer.c:1623-1948 | the type, the size and the count of each table, and where each entry is, in both widths of chunk offsets |
| `BoxLayout.VideoLayout` | src/mp4_box_writer.c:1554-1618 | the entry of a video track: codec, size of the picture, and the box of its configuration |
| `BoxLayout.AudioLayout` | src/mp4_box_writer.c:1318-1384 | the entry of an audio track: two channels of 16 bits, its sampling rate, and its descriptors |
| `BoxLayout.DescriptorLayout` | src/mp4_box_writer.c:1026-1203 | the nested descriptors of an audio configuration, each behind the length it announces |
| `BoxLayout.TimedLayout` | src/mp4_box_writer.c:1387-1454 | the entry of a track of timed metadata: its content encoding and its MIME type |
| `BoxLayout.ChaptersLayout` | src/mp4_box_writer.c:1457-1551 | the entry of a chapter track |
| `BoxLayout.TrakShape` | src/mp4_mux.c:864-1055 | the boxes that the boxes of a track hold, in order |
| `BoxLayout.StblShape` | src/mp4_mux.c:1018-1055 | its tables, without the sync table if there are no sync entries, and with the offsets in the width they need |
| `BoxLayout.MoovShape` | src/mp4_mux.c:854-1106 | the boxes of the movie: header, tracks, metadata |
| `BoxLayout.MetaShape` | src/mp4_box_writer.c:2132-2345 | the boxes of metadata, each with the handler of its kind |
| `BoxLayout.MetaHdlrLayout` | src/mp4_box_writer.c:2215-2345 | the handlers of the two kinds of lists of metadata |
| `BoxLayout.KeysLayout` | src/mp4_box_writer.c:1957-2022 | the number of keys, and each key with its size and its namespace |
| `BoxLayout.DataLayout` | src/mp4_box_writer.c:2025-2090 | a value behind its format |
| `BoxLayout.LocationLayout` | src/mp4_box_writer.c:2111-2124 | a location behind its length and its language |
| `BoxLayout.ContainerCodes` | src/mp4_priv.h:68-160 | the types of boxes that hold boxes, by their characters |
| `BoxLayout.TableCodes` | src/mp4_priv.h:68-160 | those of tables and headers |
| `BoxLayout.MediaCodes` | src/mp4_priv.h:68-160 | those of the headers of the media and of metadata |
| `BoxLayout.OtherCodes` | src/mp4_priv.h:68-160 | the codes of references, handlers, sample descriptions and tags |
| `BoxLayout.EpochOf1904` | src/mp4_priv.h:159 | times are counted from 66 years and 17 days before the epoch of Unix, the start of 1904 |
| `BoxWalk.BoxShape` | src/mp4_box_reader.c:2591-2700 | the header of a serialised box says its type and extent, in 32 or 64 bits |
| `BoxWalk.Walker.ReadTable` | src/mp4_box_reader.c:1746-2154 | on any bytes a table is read if and only if the track has none of its kind and the box is whole, and is then, entry by entry, what the words of the box say, or in stsz the size common to all samples; a written table comes back |
| `BoxWalk.Walker.ReadMovieHeader` | src/mp4_box_reader.c:194-331 | on any bytes, the timescale and the duration of the movie, where version 1 has them or where the other versions do; refused if the box is too short for its version or the timescale is 0 |
| `BoxWalk.Walker.ReadTrackLeaf` | src/mp4_box_reader.c:336-655 | on any bytes, number, references, timescale, duration and, in a media box, handler go to the open track, from where the version of the box has them, and change nothing else of it; without an open track, only a handler can be read |
| `BoxWalk.Walker.ReadDescription` | src/mp4_box_reader.c:1425-1741 | the sample description tells the open track what the muxer knew of its configuration, or fails |
| `BoxWalk.Walker.ReadKeysBox` | src/mp4_box_reader.c:2301-2406 | the keys of the file, or of the open track, are those of the list, without values |
| `BoxWalk.Walker.ReadDataBox` | src/mp4_box_reader.c:2414-2588 | on any bytes a success consumes the box; an empty value fails; a text goes to the tags of the file or to the key with the number of its parent, a picture to the cover of the file |
| `BoxWalk.Walker.ReadLocationBox` | src/mp4_box_reader.c:2160-2222 | the location replaces the one there was |
| `BoxWalk.Walker.CountEntries` | src/mp4_box_reader.c:2230-2293 | counting the entries of a written list leaves the position where it was; on any bytes, it has strayed exactly when it did not |
| `BoxWalk.Walker.ReadList` | src/mp4_box_reader.c:2920-2977 | the tags of a list in a udta box replace those there were, whichever box it is in |
| `BoxWalk.Walker.ReadBox` | src/mp4_box_reader.c:2591-3061 | one box on any bytes: at least 8 bytes, within the budget of the parent unless the walk has strayed; on the bytes of a box it fails exactly where the reader of one of its leaves does, and otherwise sees what the box tells |
| `BoxWalk.Walker.ReadChildren` | src/mp4_box_reader.c:2591-3061 | the walk ends on any bytes, every box entered lies within its parent unless the walk has strayed, and on the bytes of a tree it succeeds or fails as the leaf readers do and sees what the tree tells |
| `HeaderReader.ReadMvhd` | src/mp4_box_reader.c:194-331 | on any bytes, read if and only if the box is long enough for its version and has a timescale: timescale and duration from where version 1 has them, 64 bits wide, or where the other versions do; on a written box it gives both back, or refuses a timescale of 0 |
| `HeaderReader.ReadTkhd` | src/mp4_box_reader.c:336-475 | on any bytes, the number of the track, from where the version has it, if the box is long enough for that and the movie has a timescale |
| `HeaderReader.ReadMdhd` | src/mp4_box_reader.c:571-655 | on any bytes, timescale and duration of the track, in both versions, as for the movie |
| `HeaderReader.ReadHdlr` | src/mp4_box_reader.c:806-884 | on any bytes, what its four characters say the track is; a written one says the type of the track |
| `HeaderReader.ReadTref` | src/mp4_box_reader.c:481-530 | on any bytes, the kind of the first list, and as many words after its header as the box has, up to ten, which are taken for references |
| `TextReader.ReadKeys` | src/mp4_box_reader.c:2301-2406 | on any bytes a success consumes the box; a written list gives its keys back, up to 10 million of them |
| `TextReader.ReadLocation` | src/mp4_box_reader.c:2160-2222 | on any bytes a success consumes the box; a written location comes back, even an empty one |
| `TextReader.ReadFormat` | src/mp4_box_reader.c:2428-2440 | the format of a value, which is refused if it is empty |
| `HeaderBoxes.ReferencesBack` | src/mp4_box_writer.c:320-361 | since the list is written once per reference in it, the references read are those written if and only if there is one or there are ten |
| `MovieTexts.VisitMetaBoxes` | src/mp4_box_writer.c:1957-2345 | the boxes of metadata of the movie or of a track tell the demuxer exactly the keys and values that were set, the tags it knows, the location and the cover; or make it refuse the file, if and only if some value that is not a location is empty or too long |
| `MovieTexts.MetaBoxesSturdy` | src/mp4_box_writer.c:1957-2345 | their writers never give up |
| `MovieTexts.MetaBoxesWellTyped` | src/mp4_mux.c:935-990 | they can be read, values apart, if no tag is the type of another box |
| `Movie.VisitMoov` | src/mp4_mux.c:854-1106 | the movie box tells timescale and duration of the movie, the metadata, and of exactly the tracks with samples, in their order, number, references, timescale, duration, handler, configuration, tables and metadata; or nothing, if and only if the timescale is 0 or a value cannot be read; the duration it tells is that of the longest track, if those have 32 bits |
| `Movie.MovieLasts` | src/mp4_mux.c:849-852 | the duration of the movie is at least that of every track and is that of one of them, or 0, if their durations have 32 bits |
| `Movie.MoovWellTyped` | src/mp4_mux.c:854-1106 | the movie box of tracks within the limits of table boxes is one that can be written and read, sample descriptions and values apart |
| `Movie.MoovRefusal` | src/mp4_box_writer.c:1554-1618 | the writers of the movie box give up if and only if the configuration of some track with samples cannot be written |
| `FileLayout.InPlaceTiles` | src/mp4_mux.c:1111-1142 | brands, movie box, padding and media data tile the file |
| `FileLayout.AtEndTiles` | src/mp4_mux.c:1176-1239 | brands, free box, media data and movie box tile the file |
| `FileLayout.MdatBytes` | src/mp4_box_writer.c:2741-2796 | the 16 header bytes are an empty free box and a 32-bit box, or one 64-bit box, over the media data |
| `FileLayout.FillableWithBoxes` | src/mp4_box_writer.c:2698-2722 | a region can be filled with boxes if and only if it is empty or has at least 8 bytes |
| `MuxFile.DataFile.WriteFree` | src/mp4_box_writer.c:2698-2722 | a free box is refused below 8 bytes; only its header is written |
| `MuxFile.DataFile.WriteMdat` | src/mp4_box_writer.c:2741-2796 | the header of the media data, and which bytes a short write can have changed |
| `TrackOrder.SortTracks` | src/mp4_mux.c:737-785 | the twelve passes give the sorted list, number it from 1, put video before audio before timed metadata before chapters and enabled tracks first, and keep the order within these |
| `TrackOrder.SortedSpec` | src/mp4_mux.c:737-785 | the result is the only permutation that is ordered by type and enabled-first and keeps the order within each rank |
| `TrackOrder.SortedOrder` | src/mp4_mux.c:737-785 | the sorted list by types and flags, without ranks: the order of any two tracks in it |
| `TrackOrder.SortTwice` | src/mp4_mux.c:737-785 | sorting again changes nothing |
| `Metadata.AlternateInvolutive` | src/mp4_mux.c:1537-1561 | the alternate of an alternate is the key |
| `Metadata.AlternateMeans` | include/libmp4.h:60-77 | a key has an alternate if and only if it is one of nine QuickTime names or four-byte codes, and then it is the one that says the same |
| `Metadata.AddMeans` | src/mp4_mux.c:1564-1654 | after adding a key the list has its value, the value for its alternate if that had none, and what it had for every other key |
| `Metadata.AddKeepsPairs` | src/mp4_mux.c:1564-1654 | adding a key keeps keys distinct and every key next to its alternate |
| `Metadata.ReplayMetas` | src/mp4_mux.c:1564-1654 | adding the entries of a list one by one to an up-to-date prefix rebuilds the list, despite the alternates each addition brings |
| `JournalFile.TablesFile.Write` | src/mp4_recovery_writer.c:33-63 | an append succeeds if and only if the device takes all of it; otherwise any part of it is left behind |
| `JournalFile.TablesFile.Commit` | src/mp4_recovery_writer.c:668-700 | the commit overwrites the length and nothing else, or does not land |
| `JournalFile.CommitPrefix` | src/mp4_recovery_writer.c:754-765 | after the commit the committed bytes are the header with the new length and all records |
| `JournalFormat.RecordsAppend` | src/mp4_recovery_writer.c:717-752 | the bytes of two lists of records are those of the one followed by those of the other |
| `JournalWriter.WriteStts` | src/mp4_recovery_writer.c:464-502 | appends exactly the record of the new time entries and moves the counter with them |
| `JournalWriter.WriteStss` | src/mp4_recovery_writer.c:431-461 | appends exactly the record of the new sync entries |
| `JournalWriter.WriteStsc` | src/mp4_recovery_writer.c:386-428 | appends exactly the record of the new sample-to-chunk entries |
| `JournalWriter.WriteStsz` | src/mp4_recovery_writer.c:346-383 | appends exactly the record of the new sizes, offsets and times |
| `JournalWriter.WriteStco` | src/mp4_recovery_writer.c:313-343 | appends exactly the record of the new chunk offsets, tagged by the width of the last |
| `JournalWriter.WriteTrack` | src/mp4_recovery_writer.c:532-561 | appends the description of a track, with its name unless it is too long and its references cut to their count in bytes |
| `JournalWriter.WriteStsd` | src/mp4_recovery_writer.c:262-310 | appends the decoder configuration; a video track without one makes the sync fail, after the first 16 bytes of the description |
| `JournalReplay.InfoSurvives` | src/mp4_recovery_writer.c:532-561 | of what a track was added with, kind, flags, timescale and dates are journalled, and the name if it is shorter than 255 bytes |
| `JournalReplay.ConfigSurvives` | src/mp4_recovery_writer.c:175-310 | of its configuration, all parts are, but a string of 65535 bytes or more, and nothing for chapters |
| `JournalReplay.MetasSurvive` | src/mp4_recovery_writer.c:564-593 | of its metadata, keys shorter than 255 bytes and values shorter than 65535 |
| `JournalWriter.SyncMeta` | src/mp4_recovery_writer.c:596-622 | appends the entries after the counter, which ends one past their number |
| `JournalWriter.WriteCover` | src/mp4_recovery_writer.c:505-529 | appends the cover, or leaves a part of its record |
| `JournalWriter.WriteDescription` | src/mp4_recovery_writer.c:719-732 | the two records of a description; fails only on a full device or for a video track without a configuration, which then counts as described |
| `JournalWriter.SyncWholeTrack` | src/mp4_recovery_writer.c:717-741 | one track appends its records of this sync, and its counters then cover its tables |
| `JournalReplay.MetaItemsReplay` | src/mp4_recovery_writer.c:564-593 | metadata records replay if and only if every key is shorter than 255 bytes |
| `JournalReplay.TrackReplays` | src/mp4_recovery_writer.c:717-741 | the records of one track replay if and only if they are within the limits of the reader, and change only that track |
| `JournalReplay.TracksReplay` | src/mp4_recovery_writer.c:717-741 | the same for all tracks, in whatever order they are, new handles coming in order |
| `JournalReplay.SyncReplays` | src/mp4_recovery_writer.c:703-770 | a sync replays if and only if all its records are within the limits, and then the recovered tables are the live ones |
| `JournalSteps.AppendInStep` | src/mp4_mux.c:1808-1846 | a new sample leaves the recovered track in step with the live one |
| `JournalSteps.ReferenceInStep` | src/mp4_mux.c:1403-1430 | so does a new reference |
| `JournalSteps.TimesInStep` | src/mp4_mux.c:208-269 | so does a recomputed time table |
| `JournalSteps.MetaInStep` | src/mp4_mux.c:1564-1654 | so does a track key, added or overridden |
| `JournalSteps.FileMetaInStep` | src/mp4_mux.c:1564-1654 | a file key keeps the recovered list in step unless it overrides an entry already journalled |
| `JournalReader.ReadTable` | src/mp4_recovery_reader.c:160-239 | a table record is replayed as its meaning says |
| `JournalReader.ReadTrack` | src/mp4_recovery_reader.c:558-620 | a track record adds the next handle or renews the references |
| `JournalReader.ReadStsd` | src/mp4_recovery_reader.c:335-381 | the configuration is set for the type of the track; one whose first set is not there is refused |
| `JournalReader.ReadMeta` | src/mp4_recovery_reader.c:384-418 | a metadata record adds its key to the file or to the track |
| `JournalReader.RefsSurvive` | src/mp4_recovery_writer.c:532-561 | references are recovered if and only if there are none, or one handle below 256 |
| `JournalReader.RefsReturned` | src/mp4_recovery_writer.c:532-561 | of a single handle its lowest byte comes back; of several, the last comes back as 0 |
| `JournalReader.RecordLength` | src/mp4_recovery_reader.c:871-871 | only records without items or the description of a chapter track are as short as their first three words |
| `JournalReader.ShortRecordInert` | src/mp4_recovery_reader.c:871-871 | replaying such a record changes nothing |
| `JournalReader.LeftOut` | src/mp4_recovery_reader.c:871-871 | what the loop test leaves unread has no effect on the recovered tables |
| `JournalReader.ReplayOneRecord` | src/mp4_recovery_reader.c:650-686 | one turn replays the next record, or passes through part of a cover without touching a table |
| `JournalReader.ReplayJournal` | src/mp4_recovery_reader.c:871-895 | the loop reaches what replaying all committed records means, whatever follows the committed length |
| `JournalReader.ReadHeader` | src/mp4_recovery_reader.c:711-763 | the header of a journal that was written is read back |
| `Recovery.CutTrack` | src/mp4_recovery_reader.c:897-912 | sizes and chunk offsets are cut to the longest prefix that ends within the file |
| `Recovery.NothingLost` | src/mp4_recovery_reader.c:897-912 | since offsets grow, a sample is kept if and only if it ends within the file |
| `Recovery.CutTracks` | src/mp4_recovery_reader.c:897-912 | every track is cut, and the maximum is where the furthest kept sample ends |
| `Recovery.CutBack` | src/mp4_recovery_reader.c:897-921 | the file is truncated there, and every kept sample is still in it |
| `Recovery.SampleSalvaged` | src/mp4_recovery_reader.c:897-921 | reopening and truncating leave the bytes of a kept sample alone |
| `Recovery.SalvagedSafe` | src/mp4_recovery_reader.c:897-921 | the samples of the recovered muxer are stored, apart and growing, as those of any recording |
| `Recovery.ApplyAllSound` | src/mp4_recovery_reader.c:558-620 | whatever is replayed has sound descriptions, configurations and metadata |
| `Recovery.Recover` | src/mp4_recovery.c:268-319 | recovery reports nothing committed, an emptied file, or a closed one with exactly the surviving prefixes, metadata, cover and references, and how the close went |
| `Recovery.Rewrite` | src/mp4_mux.c:1304-1318 | closing a recovered recording keeps what was recovered, gives its tracks order, numbers and times, and goes as any close does |
| `Mux.Mux.AddTrack` | src/mp4_mux.c:1321-1381 | a track with a timescale and a known type gets the next handle; all invariants are kept |
| `Mux.Mux.FindByHandle` | src/mp4_mux.c:69-83 | the list walk finds the track with that handle in any order of the list |
| `Mux.Mux.AddReference` | src/mp4_mux.c:1384-1431 | the result and the only track that changes; all invariants are kept |
| `Mux.Mux.SetConfig` | src/mp4_mux.c:1434-1534 | a configuration is accepted if and only if the track exists, it is of its kind and nothing in it is empty, and the track then has the one given; a refused video configuration has already changed codec and size, and nothing else is changed |
| `Mux.Mux.AddTrackMetadata` | src/mp4_mux.c:1668-1680 | the metadata of one track is added or overridden; all invariants are kept |
| `Mux.Mux.AddFileMetadata` | src/mp4_mux.c:1657-1666 | the metadata of the file; it becomes stale in the journal exactly on the override of a written entry |
| `Mux.Mux.SetCover` | src/mp4_mux.c:1682-1705 | the cover is to be journalled by the next sync |
| `Mux.Mux.WriteData` | src/mp4_mux.c:1824-1839 | a short write leaves the position and every recorded sample as they were |
| `Mux.Mux.AddSample` | src/mp4_mux.c:1729-1852 | a sample is recorded at the end of the file if all of it was written; when each error is returned, and what it leaves |
| `Mux.Mux.SyncTracks` | src/mp4_recovery_writer.c:717-741 | the records of all tracks are appended and all counters moved |
| `Mux.Mux.SyncCover` | src/mp4_recovery_writer.c:748-752 | the cover is appended whole or in part, and is not tried again |
| `Mux.Mux.CommitSync` | src/mp4_recovery_writer.c:754-765 | if the commit lands the committed records grow by exactly those of the sync, otherwise not at all |
| `Mux.Mux.SyncReady` | src/mp4_mux.c:1365-1367 | the tracks the journal has not seen are last and in the order of their handles, so replay assigns the same handles |
| `Mux.Mux.LogAfterSync` | src/mp4_recovery_writer.c:703-770 | replaying the committed records and then those of the sync gives the live tables |
| `Mux.Mux.IncrementalSync` | src/mp4_recovery_writer.c:703-770 | a completed sync commits the new records and puts every track in the log; a failed one leaves the committed journal as it was, and happens only on a full device, a commit that does not land, or a video track without a configuration |
| `Mux.PermutedTracks` | src/mp4_mux.c:737-785 | a reordered list of tracks with distinct handles has each track once |
| `MuxSync.HeaderWritten` | src/mp4_mux.c:809-830 | writes before the media data leave every sample alone |
| `MuxSync.WriteMdatHeader` | src/mp4_mux.c:809-830 | the size of the media data reaches the end of the file |
| `MuxSync.Resort` | src/mp4_mux.c:833-838 | sorting changes the order and the numbers of the tracks and nothing else |
| `MuxSync.RetimeAll` | src/mp4_mux.c:840-852 | the times of every track are recomputed, and nothing else |
| `MuxSync.CheckRefs` | src/mp4_mux.c:861-917 | passes if and only if every reference of a track with samples resolves |
| `MuxSync.PlaceMoov` | src/mp4_mux.c:1111-1142 | a movie box that fits is placed in the reserved area; the gap is filled if and only if it has at least 8 bytes |
| `MuxSync.SerialiseGrowing` | src/mp4_mux.c:1145-1168 | the buffer grows until the movie box fits or its writer gives up; the size it ends with is the first that is large enough |
| `MuxSync.AppendMoov` | src/mp4_mux.c:1169-1239 | a movie box that does not fit goes to the end, over a free reserved area; on a device that takes every byte, if and only if the file does not get too long |
| `MuxSync.WriteMoov` | src/mp4_mux.c:1108-1245 | which of the two happens, that the file is then tiled, and that a writer that gives up in the first attempt is reported as a success without a movie box |
| `MuxSync.SyncInternal` | src/mp4_mux.c:788-1275 | whatever happens, samples and journal are kept; a completed sync leaves a finished file; on a device that takes every byte the result is determined by the references, the configurations and the size of the movie box |
| `MuxSync.UnconfiguredAudio` | src/mp4_mux.c:1246-1256 | a recording that consists of an audio track with a sample and no configuration, and any metadata: its movie box is not written, and the sync reports success |
| `MuxSync.MakeMoov` | src/mp4_mux.c:854-1106 | the movie box of tracks and metadata is made if and only if all references resolve, and can be written if and only if the configurations of the tracks with samples can |
| `MuxSync.PutMoov` | src/mp4_mux.c:854-1256 | the part of a sync after the times are known |
| `Recording.Open` | src/mp4_mux.c:516-707 | opening keeps everything past the header of the media data and gives an empty recording |
| `Recording.SyncJournal` | src/mp4_mux.c:1278-1301 | after a completed sync the log has exactly what the tracks have, the configurations as they were first described, and the last cover; the journal stays replayable if and only if the sync was within the limits of its reader |
| `Recording.Sync` | src/mp4_mux.c:1278-1301 | the journal first, then the tables; nothing recorded changes, and the journal stays replayable if and only if what it was given is within the limits of its reader |
| `Recording.Close` | src/mp4_mux.c:1304-1318 | a close that wrote the movie box leaves the tables of all tracks in a tiled file; a success without one means that a configuration cannot be written; on a device that takes every byte, exactly when each happens |
| `Recording.Step` | src/mp4_mux.c:1278-1852 | any operation, with any outcome, has exactly the effect that it means, keeps the recording sound and only adds to what was recorded; a sample is refused only if it is not acceptable or the device did not take it |
| `Recording.Run` | src/mp4_mux.c:1278-1852 | the same over any sequence of operations: the recording contains what they mean, every sync found what there was then, the journal is replayable if and only if every completed sync was within the limits of its reader, and the run ends early only at a sync whose commit did not land, on a full device, or for want of a video configuration |
| `Recording.Record` | src/mp4_mux.c:516-1852 | the same from the opening of the files; with modest keys, configurations and covers and no more than a million tracks and samples, the journal is always replayable |
| `Recording.ModestLoggable` | src/mp4_recovery_writer.c:703-770 | modest content is within the limits of the reader of the journal |
| `Recording.StepSample` | src/mp4_mux.c:1729-1852 | an acceptable sample is recorded at the end of the file unless the file does not take all of it |
| `Script.FinalGrows` | src/mp4_mux.c:1278-1852 | what the operations mean only grows: no later operation takes a track, a sample, a sync entry or a byte away |
| `Script.FinalWhole` | src/mp4_mux.c:1808-1846 | every sample has as many bytes as its size says, and there are no more sync entries than samples |
| `Script.ConfigLasts` | src/mp4_mux.c:1434-1534 | an accepted configuration is that of the track, part by part, until the next operation that configures it |
| `Script.AfterModest` | src/mp4_mux.c:1537-1705 | modest operations leave modest keys, configurations and covers; the alternate that a key brings along is short |
| `CrashSafety.DataLeft` | src/mp4_mux.c:1801-1846 | a media file cut anywhere still has every journalled sample that ends before the cut |
| `CrashSafety.JournalHolds` | src/mp4_recovery_writer.c:703-770 | the committed bytes of a live recording are a journal that replays to its log |
| `CrashSafety.TrackRecovered` | src/mp4_recovery_reader.c:897-921 | a recovered track has exactly the samples of the last completed sync that are still in the file, its kind, flags, timescale, dates and name, its metadata, the configuration that was journalled, and what comes back of its references |
| `CrashSafety.CrashAndRecover` | src/mp4_recovery.c:366-424 | recovery after a crash anywhere in a run, with the media file cut at any length: what is recovered, where the file then ends, and how the close went |
| `CrashSafety.ClosableWhen` | src/mp4_mux.c:861-917 | the references and configurations of the recovered tracks can be written if and only if those that were journalled say so |
| `CrashSafety.WrittenWhen` | src/mp4_recovery.c:268-319 | on a device that takes every byte, the recovered recording is closed with its movie box if and only if they can, and the box fits the reserved area or the end of the file |
| `Lifecycle.KeptIsLast` | src/mp4_recovery_writer.c:703-770 | the journal has what the last completed sync found |
| `Lifecycle.ConfigIsOfThen` | src/mp4_recovery_writer.c:717-740 | the configuration the journal has is that of the last completed sync that wrote the description of the track: the first, or one after a new reference |
| `Lifecycle.ConfigsAreLeft` | src/mp4_recovery_reader.c:335-381 | a recovered track has, part by part, the configuration that the operations had given it by then |
| `Lifecycle.CommittedBytes` | src/mp4_recovery_writer.c:754-765 | the length field of the journal says how many of its bytes are committed |
| `Lifecycle.RecordAndRecover` | src/mp4_recovery.c:366-424 | record, crash, recover, for any modest operations: by handle, exactly the samples added before the last completed sync that are still in the file, with their bytes, and of each track what it was added with, its metadata, and the configuration it had when it was last described |
| `Lifecycle.RecoveredCanBePlayed` | src/mp4_recovery.c:268-319 | what that leaves can be played back when its movie box was written; its values can be read if and only if those that were journalled can |
| `Lifecycle.ValuedByHandle` | src/mp4_recovery_reader.c:384-418 | recovering a value neither empties it nor makes it readable |
| `Lifecycle.PlayRecovered` | src/mp4_demux.c:131-214 | the demuxer gives these samples back from the recovered file: sizes, offsets, times, sync samples and bytes, and the metadata; exactly when it refuses the file or a description is lost |
| `Lifecycle.CloseAndPlay` | src/mp4_mux.c:1304-1318 | closing a recording and opening the file: how the close went, and exactly when the demuxer then refuses the file or a description is lost, from what the recording contains |
| `Lifecycle.RecordAndPlay` | src/mp4_demux.c:131-214 | record, close, play, for any operations and any failures of the devices: what the operations mean is played back, sample by sample, under exactly those conditions |
| `Lifecycle.CarriedByHandle` | src/mp4_box_reader.c:890-1230 | all descriptions come back if and only if the parameter sets that were journalled are at most 65535 bytes long |
| `TornDescription.DescribeTooLate` | src/mp4_recovery_writer.c:703-770 | a video track is synced, configured and synced again: the first sync fails and the second succeeds, after the first 16 bytes of a description that is never completed |
| `TornDescription.ReplayTorn` | src/mp4_recovery_reader.c:267-302 | replaying such a journal fails at those bytes, whatever records follow |
| `ChapterReader.LinkTracks` | src/mp4_track.c:539-561 | the loop finds the track of the chapters: the text track that the last chapter reference to a text track not yet taken names |
| `ChapterReader.ChaptersLinked` | src/mp4_track.c:539-561 | with a single chapter reference in the file it is the track that this names, in any order of the tracks |
| `ChapterReader.ReadChapters` | src/mp4_track.c:571-617 | the text of the samples of that track, up to a hundred that are not too short for it |
| `ChapterReader.ChaptersReadable` | src/mp4_track.c:571-617 | they can be read if and only if every sample up to the hundredth chapter has its length, and the text it announces, in the file |
| `ChapterReader.ChaptersRecorded` | src/mp4_track.c:571-617 | samples of two bytes and more never fail, and give the text that was recorded |
| `ChapterReader.ShortChapterRefused` | src/mp4_track.c:584-586 | a sample of one byte at the end of a file makes the demuxer refuse it |
| `FinalMetadata.BuildMetadata` | src/mp4_demux.c:35-128 | the keys that have values, then the tags, then the location; a cover among the keys before one among the tags |
| `FinalMetadata.MetadataBack` | src/mp4_demux.c:35-128 | of a file whose values can be read, every key shorter than 255 bytes is shown with its value, in order, every known tag, and the location if it is not empty; those of the tracks only if the file has none |
| `FinalMetadata.CoverBack` | src/mp4_demux.c:115-126 | the cover is shown if and only if it is a picture of a known kind and the file has tags beside it |
| `FinalMetadata.StorageMeans` | src/mp4_mux.c:1576-1595 | keys that start with "com." go to the list of keys, the location to a box of its own, all others to the tags |
| `FinalMetadata.KeysAccepted` | src/mp4_mux.c:1576-1595 | keys are accepted if they start with "com." or have four bytes, and no others |
| `FinalMetadata.TagsMean` | src/mp4_box_reader.c:2444-2455 | the tags the demuxer knows, by their last three letters |
| `FinalMetadata.FormatsMean` | src/mp4_box_writer.c:2176-2191 | JPEG, PNG and BMP covers have the formats 13, 14 and 27, which are all that the demuxer takes for pictures |
| `FinalMetadata.PictureMeans` | src/mp4_box_reader.c:2530-2585 | a picture is the cover under the tag covr, the artwork under the number of the key with that name, and nothing elsewhere |
| `RoundTrip.LayoutVisited` | src/mp4_box_reader.c:2591-3061 | a finished file can be read, and holds what its movie box holds |
| `RoundTrip.ReadTables` | src/mp4_demux.c:131-214 | the walk over a finished file finds timescale and duration of the movie, that of its longest track, and header, description, tables and metadata of the tracks with samples, and the metadata of the file, or fails as the leaf readers do |
| `RoundTrip.ConsistentWhenCounted` | src/mp4_track.c:398-515 | the tables of the muxer pass the demuxer's checks if and only if the first step is not 2^32-1 |
| `RoundTrip.BuiltSame` | src/mp4_track.c:398-515 | what expansion gives is what was recorded |
| `RoundTrip.BuildTracks` | src/mp4_track.c:382-627 | all tracks with samples are built, each in its place, with number, timescale and duration, or the file is refused |
| `RoundTrip.ReadChapterTrack` | src/mp4_track.c:539-617 | the chapters of a recording are read from the track that is taken for theirs, if and only if what its samples announce is in the file |
| `RoundTrip.ReadBack` | src/mp4_demux.c:131-214 | a closed recording read back has the recorded numbers, timescales, durations, sizes, offsets, times, sync samples, bytes and descriptions, the timescale and the duration of the movie, and the metadata, cover and chapters; exactly when it is refused or a description is lost |
| `RoundTrip.EmptyValueRefused` | src/mp4_box_reader.c:2414-2428 | with the key com.x and an empty value, the demuxer refuses the file, whatever else is in it |
| `RoundTrip.ChaptersFit` | src/mp4_track.c:571-617 | chapters never make the demuxer refuse a recording if each of their samples has at least two bytes |
| `RoundTrip.ChaptersComeBack` | src/mp4_track.c:571-617 | the chapters are then those that were recorded, with their texts |
| `RoundTrip.ToldWhenCarried` | src/mp4_box_reader.c:890-1230 | every description is told if and only if no parameter set is longer than 65535 bytes |
| `RoundTrip.OneSampleLastsNothing` | src/mp4_mux.c:230-257 | a track with a single sample has a duration of 0 |
| `RoundTrip.LastsToTheEnd` | src/mp4_mux.c:230-257 | with more samples whose steps fit it lasts from the first time to the last |
| `RoundTrip.SeekReadBack` | src/mp4_demux.c:368-424 | seeking in a recording read back to the time of a sample makes that sample the next one; it divides by zero if and only if some track with samples has no duration |
| `ConfigBytes.GroupsValue` | src/mp4_box_writer.c:1082-1102 | the 7-bit groups of a length decode to it; all but the last are marked |
| `DecoderConfig.SizeLength` | src/mp4_box_writer.c:1009-1019 | the loop counts the groups |
| `DecoderConfig.WriteSize` | src/mp4_box_writer.c:1082-1102 | the switch writes the groups of any length that fits four, and refuses the others |
| `DecoderConfig.WriteEsds` | src/mp4_box_writer.c:1026-1203 | succeeds if and only if the configuration is not empty, its outermost length fits four groups and the bytes fit; the box size is the bytes written |
| `ConfigReader.ReadSize` | src/mp4_box_reader.c:1266-1278 | decodes one to four groups to the length encoded, and refuses a fifth |
| `ConfigReader.ReadEsds` | src/mp4_box_reader.c:1234-1419 | on any bytes a success consumes exactly the box; on a written box it gives the configuration back |
| `DecoderConfig.WriteAvcc` | src/mp4_box_writer.c:764-845 | a set of fewer than 4 bytes is refused; otherwise the box is written with its exact size if it fits |
| `ConfigReader.ReadAvcc` | src/mp4_box_reader.c:890-1014 | on any bytes a success stays within the box; on a written box it gives both sets back if and only if their lengths fit 16 bits |
| `DecoderConfig.WriteHvcc` | src/mp4_box_writer.c:852-1002 | a first set of fewer than 4 bytes is refused; otherwise the box is written with its exact size if it fits |
| `ConfigReader.ReadHvcc` | src/mp4_box_reader.c:1020-1228 | on any bytes a success has read what it says; on a written box with lengths of 16 bits it gives the sets back |
| `DecoderConfig.WriteStsd` | src/mp4_box_writer.c:1213-1618 | the sample description is written if and only if the configuration suits the type of the track and can be written; otherwise where its writer gives up |
| `ConfigReader.ReadStsd` | src/mp4_box_reader.c:1425-1741 | a sample description that was written, with lengths of 16 bits, tells the demuxer what the muxer knew |
| `ConfigBytes.NotCarried` | src/mp4_box_reader.c:890-1230 | a parameter set that is too long for its length field is never read back whole |

## Left out

- The JSON dump, the command-line tools, logging, string names and `mp4_mux_dump`, which also sorts the tracks: they only show what is there.
- File descriptors, fsync, preallocation, mount and UUID probing and Windows shims: the files are byte sequences with a position and arbitrary short writes, and fsync succeeds.
- Allocation failure and freeing: memory is taken to be there.
- The removal or renaming of the journal after a close, and the removal of files whose opening failed.
- What happens after a journal write failed: the run ends there, since the next sync appends after part of a record. For a description that cannot be written, `TornDescription` goes on.
- A short write of the first words of a journal record with errno 0, which the C code takes for a success.
- Movie.VisitMoov: asks for fewer than 4280916 entries of metadata in a list, and for no four-byte key that is the type of a box the demuxer reads (`MovieTexts.PlainMetas`): the entry of such a key is read as that box, and what becomes of it then, which may be a refusal of the file, is not said.
- RoundTrip.ReadTables: asks for the same.
- RoundTrip.ReadBack: asks for the same (`RoundTrip.PlainKeys`).
- Lifecycle.PlayRecovered: asks for the same.
- Lifecycle.CloseAndPlay: plays a file only if the same holds, and tells.
- FinalMetadata.MetadataBack: takes keys and values for strings of C, which have no zero bytes.
- BoxWalk.Walker.ReadDataBox: keeps the bytes of a cover, where the C code notes their place and reads them when they are asked for; and takes the arrays of tags to be as long as needed, which they are in a list whose entries hold one value each.
- Track flags, languages and times of creation in the demuxer, the text of metadata descriptions, and the linked metadata samples of a track, with the linking of metadata tracks to video tracks.
- hvcC: the info fields are not journalled and the temporal-layer bits differ between writer and reader; the reader is not followed when a description has several entries, which share one union in C.
- Track references after recovery beyond `JournalReader.RefsReturned`: what they then refer to is of no use, and the model says only whether the close succeeds.
- The configuration of a track changed after it was journalled: the recovered track keeps the first one, unless a new reference made its description be written again.
- Mux.Mux.SetConfig: after a refused change from one video codec to the other, the C union still holds the bytes of the old sets, which the new codec then reads as its own; the model takes them for empty.
- File metadata overridden after a sync: the journal keeps the old value, and the model marks it stale.
- Sync entries of samples that a recovery cut away: they stay in the table.
- The nearest sync sample before the seek point: the search only looks forward from it.
- DemuxTrack.Track.FindNearest: asks for times below 2^63, since the C code compares them as signed numbers.
- DemuxTrack.Track.FindSampleByTime: asks for the same when the nearest sample is sought.
- Recovery with a reserved area other than the default of 2 megabytes: the size in the header is not understood on reopening.
- The close of a recovered file of which no sample is left: the file is truncated to nothing and the model stops there.
- Journals that were not written by the muxer, beyond the safety of the replay loop: what a record with errors does to the tables is not said.
- DemuxTrack.Track.Build: leaves out tables whose sample-to-chunk entries are out of order or beyond the chunk table and whose count matches all the same; for them the filling pass is not defined.
- DemuxTrack.FillOffsets: asks for entries in order and within the chunk table, since it is not defined on others.
- DemuxTrack.Track.GetSample: does not read the sample of a linked metadata track, nor report the errors of doing so.
- Hosts with big-endian integers, and tables of more than 10 million entries or movie boxes of 4 gigabytes.
- A reserved area of 4096 megabytes or more, whose free box has no 32-bit size.
- The uninitialised bytes of a parameter set that the file does not have in full: the model keeps only those it read.
- Mux.Mux.AddSample: takes the sizes as unbounded until they are stored in 32 bits, and asks for fewer than 2^32-1 samples per track.
- Recording.Run: bounds the tracks and samples added by the 10 million entries that one table box can hold.
