/** What the tree builder puts where: the header text, the names of the generated files and
    directories, the contents of the generated directories, and which MIDI files fail to load. */
module Layout {
  import opened Wrappers
  import opened Bytes
  import opened Decimal
  import opened PathText
  import opened PyDict
  import opened Midi
  import opened ChannelSplit
  import opened FsTree

  const HeaderName := "HEADER.txt"

  /** The text of HEADER.txt: the format and the number of tracks, on two lines. */
  function HeaderText(format: nat, ntrks: nat): string
  {
    "format: " + NatStr(format) + "\nntrks: " + NatStr(ntrks)
  }

  /** Reads the two header lines back; None for any other text. */
  function ParseHeader(s: string): Option<(nat, nat)>
  {
    var lines := Split(s, '\n');
    if |lines| == 2 && |lines[0]| > 8 && lines[0][..8] == "format: " && AllDigits(lines[0][8..])
       && |lines[1]| > 7 && lines[1][..7] == "ntrks: " && AllDigits(lines[1][7..])
    then Some((DigitsValue(lines[0][8..]), DigitsValue(lines[1][7..])))
    else None
  }

  /** The header names exactly the format and track count it was written from. */
  lemma HeaderRoundTrip(format: nat, ntrks: nat)
    ensures ParseHeader(HeaderText(format, ntrks)) == Some((format, ntrks))
  {
    var a := "format: " + NatStr(format);
    var b := "ntrks: " + NatStr(ntrks);
    assert HeaderText(format, ntrks) == a + ['\n'] + b;
    assert '\n' !in a by {
      forall i | 8 <= i < |a| ensures a[i] != '\n' {
        assert a[i] == NatStr(format)[i - 8];
      }
    }
    assert '\n' !in b by {
      forall i | 7 <= i < |b| ensures b[i] != '\n' {
        assert b[i] == NatStr(ntrks)[i - 7];
      }
    }
    SplitCons(a, '\n', b);
    SplitNoSep(b, '\n');
    assert a[8..] == NatStr(format) && b[7..] == NatStr(ntrks);
    NatStrRoundTrip(format);
    NatStrRoundTrip(ntrks);
  }

  /** The header is plain ASCII, so its UTF-8 encoding has one byte per character. */
  lemma HeaderIsAscii(format: nat, ntrks: nat)
    ensures |Utf8(HeaderText(format, ntrks))| == |HeaderText(format, ntrks)|
  {
    var h := HeaderText(format, ntrks);
    assert IsAscii(h) by {
      forall i | 0 <= i < |h| ensures h[i] as int < 128 {
        if 8 <= i < 8 + |NatStr(format)| {
          assert h[i] == NatStr(format)[i - 8];
        } else if 8 + |NatStr(format)| + 8 <= i {
          assert h[i] == NatStr(ntrks)[i - 16 - |NatStr(format)|];
        }
      }
    }
    Utf8OfAscii(h);
  }

  /** The header's name is a single path component. */
  lemma HeaderNameIsPathComponent()
    ensures '/' !in HeaderName && HeaderName != ""
  {
    forall k | 0 <= k < |HeaderName| ensures HeaderName[k] != '/' {
      assert HeaderName[k] in "HEADERtx.";
    }
  }

  /** The one directory the builder places at the root. */
  function TopName(format: nat): string
  {
    if format == 0 then "track" else "tracks"
  }

  /** The top directory's name is a single path component, and is not the header's name. */
  lemma TopNameIsPathComponent(format: nat)
    ensures '/' !in TopName(format) && TopName(format) != "" && TopName(format) != HeaderName
  {
    var s := TopName(format);
    assert |s| < |HeaderName|;
    forall k | 0 <= k < |s| ensures s[k] != '/' {
      assert s[k] in "tracks";
    }
  }

  /** A generated regular file: its data and the metadata `add_file` gives it. */
  function FileEntry(data: seq<byte>, host: Host): (f: File)
  {
    File(data, FileProperty(host, FILE_MODE, |data|))
  }

  function HeaderFile(mid: MidiFile, host: Host): File
  {
    FileEntry(Utf8(HeaderText(mid.format, |mid.tracks|)), host)
  }

  function ChannelFileName(c: int): string
  {
    "channel" + IntStr(c) + ".mid"
  }

  function TrackFileName(i: nat): string
  {
    "track" + NatStr(i) + ".mid"
  }

  function TrackDirName(i: nat): string
  {
    "track" + NatStr(i)
  }

  /** The names of `track0.mid` ... `track{n-1}.mid`, in order. */
  function TrackFileNames(n: nat): (names: seq<string>)
    ensures |names| == n && forall i :: 0 <= i < n ==> names[i] == TrackFileName(i)
  {
    seq(n, i requires 0 <= i < n => TrackFileName(i))
  }

  /** The names of `track0` ... `track{n-1}`, in order. */
  function TrackDirNames(n: nat): (names: seq<string>)
    ensures |names| == n && forall i :: 0 <= i < n ==> names[i] == TrackDirName(i)
  {
    seq(n, i requires 0 <= i < n => TrackDirName(i))
  }

  /** The names of the channel files of the channels `keys`, in order. */
  function ChannelFileNames(keys: seq<int>): (names: seq<string>)
    ensures |names| == |keys| && forall i :: 0 <= i < |keys| ==> names[i] == ChannelFileName(keys[i])
  {
    seq(|keys|, i requires 0 <= i < |keys| => ChannelFileName(keys[i]))
  }

  /** Different channels get different file names. */
  lemma ChannelFileNameInjective(a: int, b: int)
    ensures ChannelFileName(a) == ChannelFileName(b) ==> a == b
  {
    if ChannelFileName(a) == ChannelFileName(b) {
      var s := ChannelFileName(a);
      assert s[7..|s| - 4] == IntStr(a);
      assert ChannelFileName(b)[7..|s| - 4] == IntStr(b);
      IntStrInjective(a, b);
    }
  }

  /** Different tracks get different file names and different directory names. */
  lemma TrackNamesInjective(i: nat, j: nat)
    ensures TrackFileName(i) == TrackFileName(j) ==> i == j
    ensures TrackDirName(i) == TrackDirName(j) ==> i == j
  {
    if TrackFileName(i) == TrackFileName(j) {
      var s := TrackFileName(i);
      assert s[5..|s| - 4] == NatStr(i);
      assert TrackFileName(j)[5..|s| - 4] == NatStr(j);
      NatStrInjective(i, j);
    }
    if TrackDirName(i) == TrackDirName(j) {
      assert TrackDirName(i)[5..] == NatStr(i);
      assert TrackDirName(j)[5..] == NatStr(j);
      NatStrInjective(i, j);
    }
  }

  /** A track's file name is never a track's directory name: one ends in ".mid", the other
      in a digit. */
  lemma TrackFileIsNotTrackDir(i: nat, j: nat)
    ensures TrackFileName(i) != TrackDirName(j)
  {
    var s := NatStr(j);
    assert TrackDirName(j)[|TrackDirName(j)| - 1] == s[|s| - 1];
    assert IsDigit(s[|s| - 1]);
    assert TrackFileName(i)[|TrackFileName(i)| - 1] == 'd';
  }

  /** A rendered integer holds only digits and perhaps a minus sign. */
  lemma IntStrHasNoSlash(c: int)
    ensures '/' !in IntStr(c)
  {
    var n := if c < 0 then -c else c;
    assert '/' !in NatStr(n) by {
      forall k | 0 <= k < |NatStr(n)| ensures NatStr(n)[k] != '/' {
        assert IsDigit(NatStr(n)[k]);
      }
    }
  }

  /** The generated names are single, non-empty path components. */
  lemma GeneratedNamesArePathComponents(c: int, i: nat)
    ensures '/' !in ChannelFileName(c) && ChannelFileName(c) != ""
    ensures '/' !in TrackFileName(i) && TrackFileName(i) != ""
    ensures '/' !in TrackDirName(i) && TrackDirName(i) != ""
  {
    IntStrHasNoSlash(c);
    IntStrHasNoSlash(i);
    assert NatStr(i) == IntStr(i);
  }

  /** The files of /track after the buckets listed in `keys` have been written, in that order. */
  function ChannelListing(buckets: map<int, Track>, keys: seq<int>, codec: Codec, host: Host): (d: Dict<string, File>)
    requires forall i :: 0 <= i < |keys| ==> keys[i] in buckets
    decreases |keys|
  {
    if keys == [] then Empty()
    else
      var c := keys[|keys| - 1];
      ChannelListing(buckets, keys[..|keys| - 1], codec, host)
        .Put(ChannelFileName(c), FileEntry(codec.encode(ChannelFile(buckets[c])), host))
  }

  /** One file per channel key, in key order and with no others; the file of channel c holds the
      encoding of bucket c alone, saved with the codec's default type and timing base. */
  lemma ChannelListingSpec(buckets: map<int, Track>, keys: seq<int>, codec: Codec, host: Host)
    requires forall i :: 0 <= i < |keys| ==> keys[i] in buckets
    requires Distinct(keys)
    ensures var d := ChannelListing(buckets, keys, codec, host);
      d.Valid() && |d.keys| == |keys|
      && (forall i :: 0 <= i < |keys| ==> d.keys[i] == ChannelFileName(keys[i]))
      && (forall i :: 0 <= i < |keys| ==>
            d.entries[ChannelFileName(keys[i])] == FileEntry(codec.encode(ChannelFile(buckets[keys[i]])), host))
  {
    assert forall i :: 0 <= i < |keys| ==> keys[i] !in keys[..i];
    ChannelListingKeys(buckets, keys, codec, host);
    ChannelListingEntries(buckets, keys, codec, host);
    var d := ChannelListing(buckets, keys, codec, host);
    assert forall i :: 0 <= i < |keys| ==> d.keys[i] == ChannelFileName(keys[i]);
    forall i, j | 0 <= i < j < |d.keys| ensures d.keys[i] != d.keys[j] {
      ChannelFileNameInjective(keys[i], keys[j]);
    }
  }

  /** The keys of the listing: the channel file names in key order, and nothing else is stored. */
  lemma {:induction false} ChannelListingKeys(buckets: map<int, Track>, keys: seq<int>, codec: Codec, host: Host)
    requires forall i :: 0 <= i < |keys| ==> keys[i] in buckets
    requires forall i :: 0 <= i < |keys| ==> keys[i] !in keys[..i]
    ensures var d := ChannelListing(buckets, keys, codec, host);
      d.keys == ChannelFileNames(keys) && forall k :: k in d.entries <==> k in d.keys
    decreases |keys|
  {
    if keys != [] {
      var n := |keys| - 1;
      var front := keys[..n];
      FirstOccurrencesFront(keys, buckets);
      ChannelListingKeys(buckets, front, codec, host);
      var prev := ChannelListing(buckets, front, codec, host);
      var name := ChannelFileName(keys[n]);
      ChannelFileNameFresh(front, keys[n]);
      var e := FileEntry(codec.encode(ChannelFile(buckets[keys[n]])), host);
      prev.PutNew(name, e);
      ChannelFileNamesSnoc(keys);
    }
  }

  /** A channel that is not among `keys` has a file name that is not among theirs. */
  lemma ChannelFileNameFresh(keys: seq<int>, c: int)
    requires c !in keys
    ensures ChannelFileName(c) !in ChannelFileNames(keys)
  {
    forall i | 0 <= i < |keys| ensures ChannelFileNames(keys)[i] != ChannelFileName(c) {
      ChannelFileNameInjective(keys[i], c);
    }
  }

  /** The names of the channels `keys`, the last one split off. */
  lemma ChannelFileNamesSnoc(keys: seq<int>)
    requires keys != []
    ensures ChannelFileNames(keys) == ChannelFileNames(keys[..|keys| - 1]) + [ChannelFileName(keys[|keys| - 1])]
  {
  }

  /** The contents of the listing: the file of channel c holds the encoding of bucket c. */
  lemma ChannelListingEntries(buckets: map<int, Track>, keys: seq<int>, codec: Codec, host: Host)
    requires forall i :: 0 <= i < |keys| ==> keys[i] in buckets
    requires forall i :: 0 <= i < |keys| ==> keys[i] !in keys[..i]
    ensures var d := ChannelListing(buckets, keys, codec, host);
      forall i :: 0 <= i < |keys| ==>
        ChannelFileName(keys[i]) in d.entries
        && d.entries[ChannelFileName(keys[i])] == FileEntry(codec.encode(ChannelFile(buckets[keys[i]])), host)
  {
    var d := ChannelListing(buckets, keys, codec, host);
    forall i | 0 <= i < |keys|
      ensures ChannelFileName(keys[i]) in d.entries
      ensures d.entries[ChannelFileName(keys[i])] == FileEntry(codec.encode(ChannelFile(buckets[keys[i]])), host)
    {
      ChannelListingAt(buckets, keys, codec, host, i);
    }
  }

  /** The file of key i is stored by its own step and kept by every later one, whose keys
      differ from it. */
  lemma {:induction false} ChannelListingAt(buckets: map<int, Track>, keys: seq<int>, codec: Codec, host: Host, i: nat)
    requires forall j :: 0 <= j < |keys| ==> keys[j] in buckets
    requires forall j :: 0 <= j < |keys| ==> keys[j] !in keys[..j]
    requires i < |keys|
    ensures ChannelFileName(keys[i]) in ChannelListing(buckets, keys, codec, host).entries
    ensures ChannelListing(buckets, keys, codec, host).entries[ChannelFileName(keys[i])]
      == FileEntry(codec.encode(ChannelFile(buckets[keys[i]])), host)
    decreases |keys|
  {
    var n := |keys| - 1;
    if i < n {
      var front := keys[..n];
      FirstOccurrencesFront(keys, buckets);
      ChannelListingAt(buckets, front, codec, host, i);
      assert front[i] == keys[i];
      assert keys[i] in front;
      ChannelFileNameInjective(keys[n], keys[i]);
    }
  }

  /** Keys that each occur first where they stand still do so without the last one, which
      does not occur before it. */
  lemma FirstOccurrencesFront(keys: seq<int>, buckets: map<int, Track>)
    requires keys != [] && forall i :: 0 <= i < |keys| ==> keys[i] !in keys[..i]
    requires forall i :: 0 <= i < |keys| ==> keys[i] in buckets
    ensures var front := keys[..|keys| - 1];
      (forall i :: 0 <= i < |front| ==> front[i] !in front[..i]) && keys[|keys| - 1] !in front
    ensures var front := keys[..|keys| - 1];
      forall i :: 0 <= i < |front| ==> front[i] in buckets
  {
    var front := keys[..|keys| - 1];
    forall i | 0 <= i < |front| ensures front[i] !in front[..i] && front[i] in buckets {
      assert front[i] == keys[i] && front[..i] == keys[..i];
    }
  }

  /** The listing of the first j + 1 keys is that of the first j with key j's file stored. */
  lemma ChannelListingPrefixSnoc(buckets: map<int, Track>, keys: seq<int>, j: nat, codec: Codec, host: Host)
    requires forall i :: 0 <= i < |keys| ==> keys[i] in buckets
    requires j < |keys|
    ensures ChannelListing(buckets, keys[..j + 1], codec, host)
      == ChannelListing(buckets, keys[..j], codec, host)
           .Put(ChannelFileName(keys[j]), FileEntry(codec.encode(ChannelFile(buckets[keys[j]])), host))
  {
    assert keys[..j + 1][..j] == keys[..j];
  }

  /** Looking a channel file up by name: `channel{c}.mid` is there exactly when c is a key of
      the buckets, and holds the encoding of bucket c. */
  lemma ChannelListingLookup(b: Dict<int, Track>, codec: Codec, host: Host, c: int)
    requires b.Valid()
    ensures forall i :: 0 <= i < |b.keys| ==> b.keys[i] in b.entries
    ensures var d := ChannelListing(b.entries, b.keys, codec, host);
      (ChannelFileName(c) in d.entries <==> c in b.entries)
      && (c in b.entries ==> d.entries[ChannelFileName(c)] == FileEntry(codec.encode(ChannelFile(b.entries[c])), host))
  {
    if c in b.entries {
      ChannelListingHas(b, codec, host, c);
    } else {
      ChannelListingLacks(b, codec, host, c);
    }
  }

  lemma ChannelListingHas(b: Dict<int, Track>, codec: Codec, host: Host, c: int)
    requires b.Valid() && c in b.entries
    ensures forall i :: 0 <= i < |b.keys| ==> b.keys[i] in b.entries
    ensures var d := ChannelListing(b.entries, b.keys, codec, host);
      ChannelFileName(c) in d.entries
      && d.entries[ChannelFileName(c)] == FileEntry(codec.encode(ChannelFile(b.entries[c])), host)
  {
    assert forall i :: 0 <= i < |b.keys| ==> b.keys[i] in b.entries;
    ChannelListingSpec(b.entries, b.keys, codec, host);
    var i :| 0 <= i < |b.keys| && b.keys[i] == c;
    var d := ChannelListing(b.entries, b.keys, codec, host);
    assert d.keys[i] == ChannelFileName(c);
  }

  lemma ChannelListingLacks(b: Dict<int, Track>, codec: Codec, host: Host, c: int)
    requires b.Valid() && c !in b.entries
    ensures forall i :: 0 <= i < |b.keys| ==> b.keys[i] in b.entries
    ensures ChannelFileName(c) !in ChannelListing(b.entries, b.keys, codec, host).entries
  {
    assert forall i :: 0 <= i < |b.keys| ==> b.keys[i] in b.entries;
    assert forall i :: 0 <= i < |b.keys| ==> b.keys[i] !in b.keys[..i];
    ChannelListingKeys(b.entries, b.keys, codec, host);
    ChannelFileNameFresh(b.keys, c);
  }

  /** The names of the listing of the channels, in key order. */
  lemma ChannelListingNames(b: Dict<int, Track>, codec: Codec, host: Host)
    requires b.Valid()
    ensures forall i :: 0 <= i < |b.keys| ==> b.keys[i] in b.entries
    ensures ChannelListing(b.entries, b.keys, codec, host).keys == ChannelFileNames(b.keys)
  {
    assert forall i :: 0 <= i < |b.keys| ==> b.keys[i] in b.entries;
    ChannelListingSpec(b.entries, b.keys, codec, host);
  }

  /** The files of /tracks after `tracks` have been written, track i as `track{i}.mid`. */
  function TrackListing(tracks: seq<Track>, ticksPerBeat: int, codec: Codec, host: Host): (d: Dict<string, File>)
    decreases |tracks|
  {
    if tracks == [] then Empty()
    else
      var n := |tracks| - 1;
      TrackListing(tracks[..n], ticksPerBeat, codec, host)
        .Put(TrackFileName(n), FileEntry(codec.encode(TrackFile(ticksPerBeat, tracks[n])), host))
  }

  /** The listing of the first i + 1 tracks is that of the first i with file i stored. */
  lemma TrackListingSnoc(tracks: seq<Track>, i: nat, ticksPerBeat: int, codec: Codec, host: Host)
    requires i < |tracks|
    ensures TrackListing(tracks[..i + 1], ticksPerBeat, codec, host)
      == TrackListing(tracks[..i], ticksPerBeat, codec, host)
           .Put(TrackFileName(i), FileEntry(codec.encode(TrackFile(ticksPerBeat, tracks[i])), host))
  {
    assert tracks[..i + 1][..i] == tracks[..i];
  }

  /** Exactly `track0.mid` ... `track{n-1}.mid`, in that order; file i holds the encoding of track i
      alone, saved as type 0 with the source's timing base. */
  lemma TrackListingSpec(tracks: seq<Track>, ticksPerBeat: int, codec: Codec, host: Host)
    ensures var d := TrackListing(tracks, ticksPerBeat, codec, host);
      d.Valid() && |d.keys| == |tracks|
      && (forall i :: 0 <= i < |tracks| ==> d.keys[i] == TrackFileName(i))
      && (forall i :: 0 <= i < |tracks| ==>
            d.entries[TrackFileName(i)] == FileEntry(codec.encode(TrackFile(ticksPerBeat, tracks[i])), host))
  {
    TrackListingKeys(tracks, ticksPerBeat, codec, host);
    TrackListingEntries(tracks, ticksPerBeat, codec, host);
    var d := TrackListing(tracks, ticksPerBeat, codec, host);
    assert forall i :: 0 <= i < |tracks| ==> d.keys[i] == TrackFileName(i);
    forall i, j | 0 <= i < j < |d.keys| ensures d.keys[i] != d.keys[j] {
      TrackNamesInjective(i, j);
    }
  }

  /** The keys of the listing: the track file names in order, and nothing else is stored. */
  lemma {:induction false} TrackListingKeys(tracks: seq<Track>, ticksPerBeat: int, codec: Codec, host: Host)
    ensures var d := TrackListing(tracks, ticksPerBeat, codec, host);
      d.keys == TrackFileNames(|tracks|) && forall k :: k in d.entries <==> k in d.keys
    decreases |tracks|
  {
    if tracks != [] {
      var n := |tracks| - 1;
      TrackListingKeys(tracks[..n], ticksPerBeat, codec, host);
      var prev := TrackListing(tracks[..n], ticksPerBeat, codec, host);
      TrackFileNameFresh(n);
      var e := FileEntry(codec.encode(TrackFile(ticksPerBeat, tracks[n])), host);
      prev.PutNew(TrackFileName(n), e);
      assert TrackFileNames(n + 1) == TrackFileNames(n) + [TrackFileName(n)];
    }
  }

  /** The file name of track n is not among those of the tracks before it. */
  lemma TrackFileNameFresh(n: nat)
    ensures TrackFileName(n) !in TrackFileNames(n)
  {
    forall i | 0 <= i < n ensures TrackFileNames(n)[i] != TrackFileName(n) {
      TrackNamesInjective(i, n);
    }
  }

  /** The contents of the listing: file i holds the encoding of track i. */
  lemma {:induction false} TrackListingEntries(tracks: seq<Track>, ticksPerBeat: int, codec: Codec, host: Host)
    ensures var d := TrackListing(tracks, ticksPerBeat, codec, host);
      forall i :: 0 <= i < |tracks| ==>
        TrackFileName(i) in d.entries
        && d.entries[TrackFileName(i)] == FileEntry(codec.encode(TrackFile(ticksPerBeat, tracks[i])), host)
    decreases |tracks|
  {
    if tracks != [] {
      var n := |tracks| - 1;
      TrackListingEntries(tracks[..n], ticksPerBeat, codec, host);
      var d := TrackListing(tracks, ticksPerBeat, codec, host);
      forall i | 0 <= i < |tracks|
        ensures TrackFileName(i) in d.entries
        ensures d.entries[TrackFileName(i)] == FileEntry(codec.encode(TrackFile(ticksPerBeat, tracks[i])), host)
      {
        if i < n {
          assert tracks[i] == tracks[..n][i];
          TrackNamesInjective(i, n);
        }
      }
    }
  }

  /** `track{i}.mid` is in the listing of the first n tracks for each i below n, and holds the
      encoding of track i. */
  lemma TrackListingHas(tracks: seq<Track>, ticksPerBeat: int, codec: Codec, host: Host, i: nat)
    requires i < |tracks|
    ensures var d := TrackListing(tracks, ticksPerBeat, codec, host);
      TrackFileName(i) in d.entries
      && d.entries[TrackFileName(i)] == FileEntry(codec.encode(TrackFile(ticksPerBeat, tracks[i])), host)
  {
    TrackListingSpec(tracks, ticksPerBeat, codec, host);
    assert TrackListing(tracks, ticksPerBeat, codec, host).keys[i] == TrackFileName(i);
  }

  /** No other name is in the listing of the tracks. */
  lemma TrackListingLacks(tracks: seq<Track>, ticksPerBeat: int, codec: Codec, host: Host, name: string)
    requires forall i :: 0 <= i < |tracks| ==> name != TrackFileName(i)
    ensures name !in TrackListing(tracks, ticksPerBeat, codec, host).entries
  {
    TrackListingSpec(tracks, ticksPerBeat, codec, host);
  }

  /** The names of the listing of the tracks, in order. */
  lemma TrackListingNames(tracks: seq<Track>, ticksPerBeat: int, codec: Codec, host: Host)
    ensures TrackListing(tracks, ticksPerBeat, codec, host).keys == TrackFileNames(|tracks|)
  {
    TrackListingSpec(tracks, ticksPerBeat, codec, host);
  }

  /** The sub-directories of /tracks in the independent-pattern layout: directory i as `track{i}`. */
  function PatternDirs(subs: seq<Directory>): (d: Dict<string, Directory>)
    decreases |subs|
  {
    if subs == [] then Empty()
    else
      var n := |subs| - 1;
      PatternDirs(subs[..n]).Put(TrackDirName(n), subs[n])
  }

  /** Exactly `track0` ... `track{n-1}`, in that order, directory i being `subs[i]`. */
  lemma PatternDirsSpec(subs: seq<Directory>)
    ensures var d := PatternDirs(subs);
      d.Valid() && |d.keys| == |subs|
      && (forall i :: 0 <= i < |subs| ==> d.keys[i] == TrackDirName(i))
      && (forall i :: 0 <= i < |subs| ==> d.entries[TrackDirName(i)] == subs[i])
  {
    PatternDirsKeys(subs);
    PatternDirsEntries(subs);
    var d := PatternDirs(subs);
    assert forall i :: 0 <= i < |subs| ==> d.keys[i] == TrackDirName(i);
    forall i, j | 0 <= i < j < |d.keys| ensures d.keys[i] != d.keys[j] {
      TrackNamesInjective(i, j);
    }
  }

  /** The keys of the pattern directories: `track0` ... `track{n-1}` in order, and nothing else. */
  lemma {:induction false} PatternDirsKeys(subs: seq<Directory>)
    ensures var d := PatternDirs(subs);
      d.keys == TrackDirNames(|subs|) && forall k :: k in d.entries <==> k in d.keys
    decreases |subs|
  {
    if subs != [] {
      var n := |subs| - 1;
      PatternDirsKeys(subs[..n]);
      var prev := PatternDirs(subs[..n]);
      TrackDirNameFresh(n);
      prev.PutNew(TrackDirName(n), subs[n]);
      assert TrackDirNames(n + 1) == TrackDirNames(n) + [TrackDirName(n)];
    }
  }

  /** The directory name of track n is not among those of the tracks before it. */
  lemma TrackDirNameFresh(n: nat)
    ensures TrackDirName(n) !in TrackDirNames(n)
  {
    forall i | 0 <= i < n ensures TrackDirNames(n)[i] != TrackDirName(n) {
      TrackNamesInjective(i, n);
    }
  }

  /** The entries of the pattern directories: `track{i}` is directory i. */
  lemma {:induction false} PatternDirsEntries(subs: seq<Directory>)
    ensures var d := PatternDirs(subs);
      forall i :: 0 <= i < |subs| ==> TrackDirName(i) in d.entries && d.entries[TrackDirName(i)] == subs[i]
    decreases |subs|
  {
    if subs != [] {
      var n := |subs| - 1;
      PatternDirsEntries(subs[..n]);
      var d := PatternDirs(subs);
      forall i | 0 <= i < |subs|
        ensures TrackDirName(i) in d.entries && d.entries[TrackDirName(i)] == subs[i]
      {
        if i < n {
          assert subs[i] == subs[..n][i];
          TrackNamesInjective(i, n);
        }
      }
    }
  }

  /** The streams the independent-pattern layout splits: for each track, what iterating the
      one-track MidiFile saved for it yields. */
  function PatternStreams(mid: MidiFile, codec: Codec): (s: seq<Track>)
    ensures |s| == |mid.tracks|
  {
    seq(|mid.tracks|, i requires 0 <= i < |mid.tracks| => codec.play(TrackFile(mid.ticksPerBeat, mid.tracks[i])))
  }

  /** How the independent-pattern layout ends, stream by stream: splitting fails on an event with
      no channel, and a non-empty stream (which has at least one bucket) fails when the file of
      its first bucket is placed under the non-existent directory `track`. */
  function PatternOutcome(streams: seq<Track>): Result<()>
    decreases |streams|
  {
    if streams == [] then Ok(())
    else if !Splittable(streams[0]) then Raise(AttributeError)
    else if streams[0] != [] then Raise(KeyError)
    else PatternOutcome(streams[1..])
  }

  /** The outcome from stream i on: stream i decides, or, when it is empty, the streams after it. */
  lemma PatternOutcomeAt(streams: seq<Track>, i: nat)
    requires i < |streams|
    ensures PatternOutcome(streams[i..]) ==
      if !Splittable(streams[i]) then Raise(AttributeError)
      else if streams[i] != [] then Raise(KeyError)
      else PatternOutcome(streams[i + 1..])
  {
    assert streams[i..][0] == streams[i];
    assert streams[i..][1..] == streams[i + 1..];
  }

  /** The independent-pattern layout succeeds only when every stream is empty; otherwise the
      first non-empty stream decides the error. */
  lemma {:induction false} PatternOutcomeSpec(streams: seq<Track>)
    ensures PatternOutcome(streams).Ok? <==> forall i :: 0 <= i < |streams| ==> streams[i] == []
    ensures PatternOutcome(streams).Raise? ==>
      exists k :: 0 <= k < |streams| && streams[k] != [] && (forall i :: 0 <= i < k ==> streams[i] == [])
        && PatternOutcome(streams).exception == (if Splittable(streams[k]) then KeyError else AttributeError)
    decreases |streams|
  {
    if streams != [] {
      PatternOutcomeSpec(streams[1..]);
      if streams[0] == [] {
        assert Splittable(streams[0]);
        if PatternOutcome(streams).Raise? {
          var k :| 0 <= k < |streams[1..]| && streams[1..][k] != [] && (forall i :: 0 <= i < k ==> streams[1..][i] == [])
            && PatternOutcome(streams[1..]).exception == (if Splittable(streams[1..][k]) then KeyError else AttributeError);
          assert streams[k + 1] == streams[1..][k];
          forall i | 0 <= i < k + 1 ensures streams[i] == [] {
            if i > 0 { assert streams[i] == streams[1..][i - 1]; }
          }
        } else {
          forall i | 0 <= i < |streams| ensures streams[i] == [] {
            if i > 0 { assert streams[i] == streams[1..][i - 1]; }
          }
        }
      }
    }
  }

  /** What loading a decoded MIDI file ends in: format 0 fails with no tracks or when its track
      has an event without the attribute the splitter reads from it; format 1 always succeeds. */
  function BuildOutcome(mid: MidiFile, codec: Codec): Result<()>
  {
    if mid.format == 0 then
      if mid.tracks == [] then Raise(IndexError)
      else if !Splittable(mid.tracks[0]) then Raise(AttributeError)
      else Ok(())
    else if mid.format == 1 then Ok(())
    else PatternOutcome(PatternStreams(mid, codec))
  }

  /** A format 0 file whose track holds a channel_prefix event without the `.data` attribute
      that the splitter reads from it fails to load with AttributeError, whatever else the
      track holds. */
  lemma PrefixWithoutDataRaises(mid: MidiFile, codec: Codec, i: nat)
    requires mid.format == 0 && mid.tracks != [] && i < |mid.tracks[0]|
    requires mid.tracks[0][i].MetaMessage? && mid.tracks[0][i].kind == ChannelPrefix
    requires mid.tracks[0][i].data.None?
    ensures BuildOutcome(mid, codec) == Raise(AttributeError)
  {
    assert !HasChannel(mid.tracks[0][i]);
  }
}
