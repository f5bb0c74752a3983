# MIDI sequencer filesystem, modelled in Dafny

`midi_sequencer.py` mounts one MIDI file as a read-only FUSE filesystem. When it loads, it
builds an in-memory tree:

- the root holds `HEADER.txt` (`format: F\nntrks: N`, UTF-8) and one directory;
- format 0: `/track` holds one `channel{c}.mid` per MIDI channel of the single track. The
  channel splitter assigns every event to the channel current at that point;
- format 1: `/tracks` holds one `track{i}.mid` per track;
- format 2 and above: `/tracks` holds `track{i}.mid` and a directory `track{i}` per track, then
  splits what playing each track file yields into channels.

The filesystem then serves `getattr`, `readdir`, `read` and `open` from that tree, resolving
paths with `get_dir` and `get_file`.

The project models this core:

- **Data.** `Property`, `File` (a value) and `Directory` (a class whose `files`,
  `directories` and `properties` are reassigned in place) live in `FsTree`. Python's
  insertion-ordered dicts are `PyDict.Dict`. Exceptions (`IndexError`, `KeyError`,
  `AttributeError`, `FuseOSError(ENOENT)`) are a `Result` outcome in `Wrappers`.
- **Channel splitter** (`ChannelSplit`). The loop is a method, `SplitChannels`, proved
  against a specification function, `Buckets`. Lemmas about `Buckets` state the assignment
  rule, first-use key order, and that no event is lost, duplicated or reordered.
- **Tree builder** (`Sequencer.MidiSequencer`). The constructor, `add_file`, `add_dir` and
  `sequencer` are methods that update the tree in place. The loops of `sequencer` are
  helper methods (`WriteChannelFiles`, `WriteTrackFiles`, `WritePatterns`). Each of them
  is proved against the listing functions in `Layout`.
- **Path resolution and the FUSE operations.** `get_dir`, `get_file`, `getattr`,
  `readdir`, `read` and `open` are methods. All but `open` are proved equal to a ghost
  function (`ResolveDir`, `ResolveFile`, `Attributes`, `Listing`, `ReadResult`). `open` is
  specified by the handle counter it advances. Lemmas then state what each query answers on
  a mounted tree.
- **The MIDI codec** is a parameter, `Midi.Codec`:
  - `encode` saves a MidiFile to bytes;
  - `play` is the stream that iterating a MidiFile yields;
  - decoding the input file is replaced by the decoded `MidiFile` itself.
- **Start time, uid and gid** are a `Host` parameter.

Format 2 and above ends in an exception whenever anything is split. Line 129 places the
channel files under `directories["track"]`, and this layout only creates `tracks`. So loading
succeeds only when every played stream is empty. Otherwise the first non-empty stream decides
the error:

- `KeyError` when the splitter can read every event of it, given a codec whose save of the
  first channel file at line 127 succeeds;
- `AttributeError` otherwise.

The model states this outcome for such a codec (`Layout.PatternOutcomeSpec`). With mido that
save can fail first, as "## Left out" says.

Where the code behaves in a way a reader might not expect, the model follows the code:

- A directory's `st_nlink` grows by one for every file added to it, not only for
  sub-directories (lines 185 and 193).
- `open` neither looks at its path nor fails; it only hands out the next handle.
- `readdir` on a file or a missing path raises `AttributeError`: it reads `.files` of `None`.
- `getattr` and `read` on a path whose parent directory is missing raise `AttributeError`,
  not `ENOENT`, because `get_file` reads `.files` of `None`.
- A `channel_prefix` meta event sets the current channel to `msg.data` (lines 73 and 119). The
  decoder decides whether such an event has a `.data` attribute, so `Midi.Event` makes it
  optional. Without it the splitter raises `AttributeError`, just as it does for a message
  without `.channel`. mido stores a channel prefix's value as `.channel` and gives the event no
  `.data`, so with mido every track holding a `channel_prefix` event fails to split.
- A non-meta message without a channel, such as system-exclusive, makes the splitter raise
  `AttributeError` (lines 67 and 113).
- Given a codec whose save succeeds, format 0 with no tracks raises `IndexError` (line 62).
- Channel files are saved from a default MidiFile (`Midi.ChannelFile`: type 1, 480 ticks per
  beat, the bucket as its one track), not from the source's settings (lines 78-79). Track
  files are saved from `Midi.TrackFile`: type 0, the source's ticks per beat, the track as its
  one track (lines 89-91).

## Model

| member | source | states |
|---|---|---|
| Bytes.EncodeChar | midi_sequencer.py:51-52 | the UTF-8 encoding of one character is 1 to 4 bytes; a single byte equal to the code point exactly for ASCII; otherwise a lead byte of at least 0xC0 followed by continuation bytes in [0x80, 0xC0) |
| Bytes.Utf8OfAscii | midi_sequencer.py:51-52 | ASCII text encodes to one byte per character, each byte the character's code point |
| Bytes.Slice | midi_sequencer.py:146 | `data[offset:offset + size]` is never longer than `data`; for non-negative bounds its length is the overlap of the range with `data`; it is the run of `data` starting at `offset`, and empty from the end of `data` on |
| Decimal.NatStr | midi_sequencer.py:51 | the decimal text of a count is non-empty, all digits, and starts with '0' only for zero |
| Decimal.NatStrRoundTrip | midi_sequencer.py:51 | reading the digits back gives the number they were written from |
| Decimal.IntStr | midi_sequencer.py:82 | the decimal text of an integer starts with '-' exactly when it is negative |
| Decimal.IntStrRoundTrip | midi_sequencer.py:82 | parsing the text of an integer gives that integer back |
| Decimal.IntStrInjective | midi_sequencer.py:82 | two integers with the same text are equal |
| Decimal.NatStrInjective | midi_sequencer.py:94 | two counts with the same text are equal |
| PathText.Split | midi_sequencer.py:156 | `str.split` returns at least one piece |
| PathText.SplitPiecesHaveNoSep | midi_sequencer.py:166 | no piece that `split` returns contains the separator |
| PathText.JoinSplit | midi_sequencer.py:156-158 | joining the pieces of a split with the same separator gives the string back |
| PathText.SplitNoSep | midi_sequencer.py:166 | a string without the separator splits into itself alone |
| PathText.SplitCons | midi_sequencer.py:166 | splitting `a + sep + b`, with no separator in `a`, gives `a` followed by the pieces of `b` |
| PathText.SplitJoin | midi_sequencer.py:156-158 | splitting a join of separator-free pieces gives the pieces back |
| PathText.RStrip | midi_sequencer.py:165 | `rstrip('/')` returns a prefix of the path that does not end in '/', and every character it removed is '/' |
| PathText.RStripIgnoresTrailing | midi_sequencer.py:165 | appending any number of '/' does not change what `rstrip('/')` returns |
| PyDict.Dict.Put | midi_sequencer.py:181 | `d[k] = v` maps k to v; a new key goes to the end of the iteration order, an existing key keeps its place |
| PyDict.Dict.PutNew | midi_sequencer.py:189 | storing a key that is not there appends it to the order, and the order still lists exactly the stored keys |
| PyDict.Dict.PutKeepsValid | midi_sequencer.py:189 | storing a key keeps the order free of repeats and in step with the stored keys |
| ChannelSplit.SplitChannels | midi_sequencer.py:63-76 | the splitting loop returns the buckets `Buckets(track)` when every message has `.channel` and every `channel_prefix` event has `.data`, and raises `AttributeError` when an event lacks the attribute read from it |
| ChannelSplit.ContextIsMostRecent | midi_sequencer.py:64-73 | the current channel is 0 until an event sets it, and afterwards the value set by the most recent setting event |
| ChannelSplit.AssignmentRule | midi_sequencer.py:65-76 | an event goes to the bucket of its own channel if it is a message; of its data if it is a `channel_prefix` that has data; otherwise of the current channel (0 before any setting event) |
| ChannelSplit.DedupSpec | midi_sequencer.py:68-69 | the channels in first-use order hold each assigned channel exactly once and no other |
| ChannelSplit.DedupFirstUse | midi_sequencer.py:74-75 | bucket keys are ordered by the first event assigned to each |
| ChannelSplit.BucketsShape | midi_sequencer.py:63-76 | the buckets are a valid dict; a channel has a bucket exactly when some event is assigned to it; no bucket is empty; keys are in first-use order |
| ChannelSplit.SplitReassembles | midi_sequencer.py:63-76 | taking each event's label and its position within its bucket rebuilds the track exactly: no event is lost, duplicated or reordered |
| ChannelSplit.BucketLengthsSum | midi_sequencer.py:63-76 | the bucket lengths add up to the length of the track |
| ChannelSplit.BucketsEmptyIff | midi_sequencer.py:123-128 | there are no buckets exactly when the track is empty |
| Paths.DirSegmentsIgnoreTrailingSlashes | midi_sequencer.py:165-166 | trailing '/' do not change the names `get_dir` walks |
| Paths.DirSegmentsOfRootPaths | midi_sequencer.py:165-168 | a path with no '/' before its trailing ones walks no names, and neither do "" and "/" |
| Paths.DirSegmentsOfAbsolutePath | midi_sequencer.py:165-172 | `get_dir` on `/a/b/...` walks exactly the names a, b, ... when none is empty or contains '/' |
| Paths.FileRefOfAbsolutePath | midi_sequencer.py:153-158 | `get_file` on `/d1/.../name` looks `name` up in the parent path, whose walked names are d1, ... |
| FsTree.Directory.constructor | midi_sequencer.py:29-33 | a new directory holds the files, sub-directories and metadata it is given |
| Layout.HeaderRoundTrip | midi_sequencer.py:51 | HEADER.txt names exactly the format and track count it was written from |
| Layout.HeaderIsAscii | midi_sequencer.py:51-52 | HEADER.txt's size in bytes equals the length of its text |
| Layout.ChannelFileNameInjective | midi_sequencer.py:82 | different channels get different file names |
| Layout.TrackNamesInjective | midi_sequencer.py:101 | different tracks get different file names and different directory names |
| Layout.TrackFileIsNotTrackDir | midi_sequencer.py:101-108 | no `track{i}.mid` is named like a `track{j}` directory |
| Layout.ChannelListingSpec | midi_sequencer.py:77-83 | the channel loop stores one file per bucket key, in key order, under distinct names; the file of channel c holds the encoding of bucket c |
| Layout.ChannelListingKeys | midi_sequencer.py:77-83 | the listing's names are the channel file names of the keys in order, and only those are stored |
| Layout.ChannelListingEntries | midi_sequencer.py:77-83 | the file stored for each key holds the encoding of that key's bucket |
| Layout.ChannelListingLookup | midi_sequencer.py:77-83 | `channel{c}.mid` is stored exactly when c has a bucket, and then holds the encoding of that bucket |
| Layout.ChannelListingHas | midi_sequencer.py:77-83 | the file of every channel with a bucket is stored, holding the encoding of that bucket |
| Layout.ChannelListingLacks | midi_sequencer.py:77-83 | no file is stored for a channel without a bucket |
| Layout.ChannelListingNames | midi_sequencer.py:77-83 | the stored names are the channel file names in bucket order |
| Layout.TrackListingSpec | midi_sequencer.py:88-95 | the track loop stores exactly `track0.mid` to `track{n-1}.mid`, in order, under distinct names; file i holds the encoding of track i alone |
| Layout.TrackListingKeys | midi_sequencer.py:88-95 | the listing's names are the track file names in order, and only those are stored |
| Layout.TrackListingEntries | midi_sequencer.py:88-95 | file i holds the encoding of track i |
| Layout.TrackListingHas | midi_sequencer.py:88-95 | `track{i}.mid` is stored for each track i, holding that track's encoding |
| Layout.TrackListingLacks | midi_sequencer.py:88-95 | no name other than the track file names is stored |
| Layout.TrackListingNames | midi_sequencer.py:88-95 | the stored names are the track file names in track order |
| Layout.PatternDirsSpec | midi_sequencer.py:100-101 | the pattern loop stores exactly `track0` to `track{n-1}` as directories, in order, under distinct names; directory i is the one made for track i |
| Layout.PatternDirsKeys | midi_sequencer.py:100-101 | the directory names are the track directory names in order, and only those are stored |
| Layout.PatternDirsEntries | midi_sequencer.py:100-101 | `track{i}` is the directory made for track i |
| Layout.PatternOutcomeSpec | midi_sequencer.py:97-130 | format 2 and above loads exactly when every played stream is empty; otherwise the first non-empty stream decides: `KeyError` when the splitter can read every event of it (given a codec whose save at line 127 succeeds), `AttributeError` when an event lacks the attribute read from it |
| Layout.PrefixWithoutDataRaises | midi_sequencer.py:72-73 | a format 0 file whose track holds a `channel_prefix` event without `.data` fails to load with `AttributeError` |
| Sequencer.MidiSequencer.constructor | midi_sequencer.py:44-52 | loading starts with a root holding only HEADER.txt (its text in UTF-8), three links, and handle counter 1 |
| Sequencer.MidiSequencer.AddFile | midi_sequencer.py:187-193 | adding a file stores it under its name with its data, size, mode and one link; gives its directory one more link; advances the handle counter; changes nothing else |
| Sequencer.MidiSequencer.AddDir | midi_sequencer.py:179-185 | adding a directory stores a fresh, empty directory with two links under its name and gives the parent one more link |
| Sequencer.MidiSequencer.Sequencer | midi_sequencer.py:55-130 | building ends as `BuildOutcome` says (given a codec whose saves at lines 60 and 127 succeed), and on success leaves the tree of the file's format and advances the handle counter once per file written |
| Sequencer.MidiSequencer.SingleTrackLayout | midi_sequencer.py:56-83 | given a codec whose save succeeds, format 0 raises `IndexError` with no tracks and `AttributeError` when the track has an event without the attribute the splitter reads from it; otherwise `/track` holds the channel files |
| Sequencer.MidiSequencer.WriteChannelFiles | midi_sequencer.py:77-83 | the loop leaves `/track` holding exactly the channel listing, with two links plus one per bucket |
| Sequencer.MidiSequencer.MultiTrackLayout | midi_sequencer.py:85-95 | format 1 always loads, leaving `/tracks` with one file per track |
| Sequencer.MidiSequencer.WriteTrackFiles | midi_sequencer.py:88-95 | the loop leaves `/tracks` holding exactly the track listing, with two links plus one per track |
| Sequencer.MidiSequencer.PatternLayout | midi_sequencer.py:97-130 | format 2 and above ends as `PatternOutcome` of the played streams (given a codec whose save at line 127 succeeds), and on success leaves the pattern tree |
| Sequencer.MidiSequencer.WritePatterns | midi_sequencer.py:100-130 | the pattern loop raises at the first stream that cannot be split or has a bucket (`KeyError` given a codec whose save at line 127 succeeds); on success `/tracks` holds every track file and one empty directory per track |
| Sequencer.MidiSequencer.AddPatternTrack | midi_sequencer.py:100-122 | one pattern pass adds directory `track{i}` and file `track{i}.mid` (two more links) and returns the split of what playing that file yields |
| Sequencer.MidiSequencer.AddPatternDir | midi_sequencer.py:101 | the pattern directory is fresh and empty, joins the tree, and the directories made earlier stay empty |
| Sequencer.MidiSequencer.AddTopDir | midi_sequencer.py:61 | the root gets its one sub-directory, empty, and one more link |
| Sequencer.MidiSequencer.GetDir | midi_sequencer.py:164-177 | `get_dir` returns the directory `ResolveDir` names, or None at the first missing name |
| Sequencer.MidiSequencer.GetFile | midi_sequencer.py:152-162 | `get_file` answers as `ResolveFile`: `IndexError` on "", None for a trailing '/', `AttributeError` for a missing parent, else the file by name in the parent |
| Sequencer.MidiSequencer.GetAttr | midi_sequencer.py:132-138 | `getattr` answers as `Attributes`: a file's metadata first, else a directory's, else `ENOENT` |
| Sequencer.MidiSequencer.ReadDir | midi_sequencer.py:140-142 | `readdir` answers as `Listing`: `.`, `..`, the files, then the sub-directories, each in insertion order |
| Sequencer.MidiSequencer.Read | midi_sequencer.py:144-146 | `read` answers as `ReadResult`: the slice of the file's data, `AttributeError` when no file is there |
| Sequencer.MidiSequencer.Open | midi_sequencer.py:148-150 | `open` advances the handle counter by one and returns the new value |
| Sequencer.MidiSequencer.WalkAppend | midi_sequencer.py:171-176 | walking `a + b` walks `b` from where walking `a` ends, and fails if walking `a` fails |
| Sequencer.MidiSequencer.WalkStopsAtMissingName | midi_sequencer.py:173-176 | a name missing at any step makes the whole walk fail |
| Sequencer.MidiSequencer.ResolveDirIgnoresTrailingSlashes | midi_sequencer.py:165 | trailing '/' do not change the directory a path names |
| Sequencer.MidiSequencer.ResolveDirOfRootPaths | midi_sequencer.py:165-168 | "", "/" and any path without an inner '/' name the root |
| Sequencer.MidiSequencer.ResolveDirOfAbsolutePath | midi_sequencer.py:164-177 | an absolute path of proper names resolves by walking those names from the root |
| Sequencer.MidiSequencer.ResolveFileOfAbsolutePath | midi_sequencer.py:152-162 | an absolute file path raises `AttributeError` when its parent does not resolve, and otherwise finds the leaf among the parent's files only |
| Sequencer.MidiSequencer.ResolveFileOfDirectoryPaths | midi_sequencer.py:152-154 | "" raises `IndexError`, and a path ending in '/' is never a file |
| Sequencer.MidiSequencer.ReadClips | midi_sequencer.py:144-146 | reading a file with non-negative size and offset returns at most `size` bytes, the run of its data from `offset`, and nothing from the end on |
| Sequencer.MidiSequencer.RootQueries | midi_sequencer.py:132-142 | on a mounted tree `/` has four links and lists `.`, `..`, `HEADER.txt` and the format's directory |
| Sequencer.MidiSequencer.RootPath | midi_sequencer.py:132-168 | `/` names the root and no file, so `getattr /` gives the root's metadata and `readdir /` its entries |
| Sequencer.MidiSequencer.MountedShape | midi_sequencer.py:44-130 | a mounted root holds only `HEADER.txt` and the one directory the format names |
| Sequencer.MidiSequencer.RootEntry | midi_sequencer.py:152-177 | `/name` resolves to the root's file or sub-directory of that name, if any |
| Sequencer.MidiSequencer.HeaderLookup | midi_sequencer.py:51-52 | `/HEADER.txt` resolves to the header file |
| Sequencer.MidiSequencer.HeaderQueries | midi_sequencer.py:132-146 | `getattr` of `/HEADER.txt` gives a file of the header text's length, and reading that many bytes from 0 gives the text in UTF-8 |
| Sequencer.MidiSequencer.SubEntry | midi_sequencer.py:152-177 | `/dir` and `/dir/name` resolve to the entries stored under those names |
| Sequencer.MidiSequencer.TrackDirShape | midi_sequencer.py:56-83 | format 0: `/track` holds only the channel files, in bucket order, and has two links plus one per bucket |
| Sequencer.MidiSequencer.TrackDirQueries | midi_sequencer.py:140-142 | format 0: `readdir /track` lists `.`, `..` and the channel files in bucket order, and its link count is two plus one per bucket |
| Sequencer.MidiSequencer.ChannelFileQueries | midi_sequencer.py:132-138 | format 0: `getattr /track/channel{c}.mid` gives that file's metadata exactly when channel c has a bucket, and `ENOENT` otherwise |
| Sequencer.MidiSequencer.TracksShape | midi_sequencer.py:85-108 | formats 1 and up: `/tracks` holds the track listing, no directories in format 1, `track0` to `track{n-1}` from format 2, and two links plus one per entry |
| Sequencer.MidiSequencer.PatternTracksShape | midi_sequencer.py:97-108 | from format 2: `/tracks` holds the track listing and the directories `track0` to `track{n-1}`, with two links plus two per track |
| Sequencer.MidiSequencer.TrackFilePresent | midi_sequencer.py:152-162 | `/tracks/track{i}.mid` resolves to the file of track i for every i below the track count |
| Sequencer.MidiSequencer.TrackFileAbsent | midi_sequencer.py:152-177 | for i at or past the track count, `/tracks/track{i}.mid` is neither a file nor a directory |
| Sequencer.MidiSequencer.TrackFileQueries | midi_sequencer.py:132-146 | formats 1 and up: `/tracks/track{i}.mid` exists exactly for i below the track count; its size is that of the encoded track and reading returns the slice of that encoding; a higher i gives `ENOENT` on `getattr` and `AttributeError` on `read` |
| Sequencer.MidiSequencer.TracksQueries | midi_sequencer.py:140-142 | formats 1 and up: `readdir /tracks` lists the track files in order, then (from format 2) the pattern directories in order; two links plus one per entry |
| Sequencer.MidiSequencer.PatternDirQueries | midi_sequencer.py:101 | from format 2, each `/tracks/track{i}` lists only `.` and `..` and has two links |
| Sequencer.MidiSequencer.MountedLinkCounts | midi_sequencer.py:181-193 | in a mounted tree every directory has two links plus one per file and sub-directory it holds |
| Sequencer.MidiSequencer.ListingOfFileRaises | midi_sequencer.py:140-142 | `readdir /HEADER.txt` raises `AttributeError` |
| Sequencer.MidiSequencer.MissingParentRaises | midi_sequencer.py:159-160 | `getattr` and `read` of `/dir/leaf` raise `AttributeError` when `dir` does not exist |
| Sequencer.Load | midi_sequencer.py:44-53 | loading raises exactly when `BuildOutcome` does, with the same exception (given a codec whose saves at lines 60 and 127 succeed); otherwise it returns a mounted tree whose handle counter is one plus the number of generated files |

## Left out

- The MIDI codec (mido): decoding the input file (line 46), saving MidiFiles to bytes and
  iterating a MidiFile are not modelled. The decoded file is a parameter, and saving and
  playing are the opaque functions of `Midi.Codec`.
- The save of the whole file at lines 59-60 writes to a buffer that is never read. The model
  assumes this save never fails. With mido it raises `ValueError` for every format 0 file that
  does not hold exactly one track. So with mido, a format 0 file with no tracks fails there
  rather than with `IndexError` at line 62, and one with two or more tracks does not load,
  where the model loads it from its first track.
- Sequencer.MidiSequencer.SingleTrackLayout: its outcome holds given a codec whose save at
  line 60 succeeds.
- The save of the first channel file at line 127, for format 2 and above, is assumed never to
  fail: `Midi.Codec.encode` is total. The stream split at line 111 is what playing the track
  yields, and mido gives a non-zero delta time there in seconds, as a float. mido's save then
  raises `ValueError` because a message time in a MIDI file must be an int. So with mido, when
  the first bucket holds an event with a non-zero delta, loading raises `ValueError` at line
  127 instead of `KeyError` at line 129.
- Layout.PatternOutcomeSpec: its `KeyError` outcome holds only for a codec whose save at line
  127 succeeds; with mido that save raises `ValueError` when the first bucket holds an event
  with a non-zero delta.
- Sequencer.MidiSequencer.PatternLayout: its `KeyError` outcome holds only for a codec whose
  save at line 127 succeeds; with mido that save raises `ValueError` when the first bucket
  holds an event with a non-zero delta.
- Sequencer.MidiSequencer.WritePatterns: its `KeyError` outcome holds only for a codec whose
  save at line 127 succeeds; with mido that save raises `ValueError` when the first bucket
  holds an event with a non-zero delta.
- Sequencer.MidiSequencer.Sequencer: its format 0 outcome holds given a codec whose save at
  line 60 succeeds, and its format 2 and above `KeyError` outcome only for a codec whose save
  at line 127 succeeds; with mido that save raises `ValueError` when the first bucket holds an
  event with a non-zero delta.
- Sequencer.Load: its format 0 outcome holds given a codec whose save at line 60 succeeds,
  and its format 2 and above `KeyError` outcome only for a codec whose save at line 127
  succeeds; with mido that save raises `ValueError` when the first bucket holds an event with
  a non-zero delta.
- FUSE itself, `LoggingMixIn`, the operations the code does not define (all writes), the
  `fh` arguments, and the command line at lines 196-204.
- Concurrent calls from FUSE threads: each operation is modelled as one atomic step.
- `NOW`, `os.getuid()` and `os.getgid()` come in through `Host`, and timestamps are only
  stored. `Property` being a `dict` subclass, and `getattr` returning its `__dict__`, become a
  plain record.
- ChannelSplit.AssignmentRule: the rule for `channel_prefix` events covers only events that
  have `.data`. The decoder is not part of this model, and with mido no such event has it
  (see `Layout.PrefixWithoutDataRaises`).
- Sequencer.MidiSequencer.ChannelFileQueries: states only `getattr` of a channel file. Its
  contents follow from `Layout.ChannelListingLookup` together with `ReadResult`.
- Sequencer.MidiSequencer.PatternLayout: does not describe the tree left behind when it
  raises. Loading stops there, and `Load` returns no filesystem.
