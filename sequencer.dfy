/** The sequencer: the tree it builds when it loads a MIDI file, and the read-only filesystem
    operations it serves from that tree. */
module Sequencer {
  import opened Wrappers
  import opened Bytes
  import opened PathText
  import opened PyDict
  import opened Midi
  import opened ChannelSplit
  import opened FsTree
  import opened Layout
  import opened Paths

  /** A directory whose link count is 2 plus one per entry it holds. */
  ghost predicate CountsLinks(d: Directory)
    reads d
  {
    d.properties.st_nlink == 2 + |d.files.keys| + |d.directories.keys|
  }

  class MidiSequencer {
    /** The last file handle given out; the builder also advances it once per file. */
    var fd: int
    const mid: MidiFile
    const codec: Codec
    const host: Host
    const root: Directory
    /** Every directory of the tree. */
    ghost var Repr: set<Directory>

    ghost predicate Valid()
      reads this, Repr
    {
      root in Repr && forall d :: d in Repr ==> d.directories.entries.Values <= Repr
    }

    /** The one sub-directory of the root, once the builder has run. */
    ghost function Top(): (t: Directory)
      requires Valid() && root.directories.Valid() && |root.directories.keys| == 1
      reads this, Repr
      ensures t in Repr
    {
      var t := root.directories.entries[root.directories.keys[0]];
      assert t in root.directories.entries.Values;
      t
    }

    /** `/track` in format 0: one file per channel bucket, in bucket order, and nothing else. */
    ghost predicate ChannelDir(t: Directory, b: Dict<int, Track>)
      requires forall i :: 0 <= i < |b.keys| ==> b.keys[i] in b.entries
      reads t
    {
      t.directories == Empty()
      && t.files == ChannelListing(b.entries, b.keys, codec, host)
      && t.properties == DirProperty(host, DIR_MODE).(st_nlink := 2 + |b.keys|)
    }

    /** `/tracks` in format 1: one file per track, and nothing else. */
    ghost predicate TrackDir(t: Directory)
      reads t
    {
      t.directories == Empty()
      && t.files == TrackListing(mid.tracks, mid.ticksPerBeat, codec, host)
      && t.properties == DirProperty(host, DIR_MODE).(st_nlink := 2 + |mid.tracks|)
    }

    /** `/tracks` in format 2 and above, when nothing failed: one file and one empty
        directory per track. */
    ghost predicate PatternDir(t: Directory)
      reads t, t.directories.entries.Values
    {
      t.files == TrackListing(mid.tracks, mid.ticksPerBeat, codec, host)
      && t.directories.Valid() && |t.directories.keys| == |mid.tracks|
      && (forall k :: 0 <= k < |mid.tracks| ==> t.directories.keys[k] == TrackDirName(k))
      && (forall k :: 0 <= k < |mid.tracks| ==>
            TrackDirName(k) in t.directories.entries && EmptyPatternDir(t, t.directories.entries[TrackDirName(k)]))
      && t.properties == DirProperty(host, DIR_MODE).(st_nlink := 2 + 2 * |mid.tracks|)
    }

    /** A pattern directory: distinct from its parent, with nothing in it. */
    ghost predicate EmptyPatternDir(t: Directory, s: Directory)
      reads s
    {
      s != t && s.files == Empty() && s.directories == Empty() && s.properties == DirProperty(host, DIR_MODE)
    }

    /** `t` in the independent-pattern layout after the first |subs| tracks: their files, their
        directories `subs`, all empty, and two links per track. */
    ghost predicate PatternProgress(t: Directory, subs: seq<Directory>)
      reads t, subs
    {
      |subs| <= |mid.tracks|
      && t.files == TrackListing(mid.tracks[..|subs|], mid.ticksPerBeat, codec, host)
      && t.directories == PatternDirs(subs)
      && EmptyPatternDirs(t, subs)
      && t.properties == DirProperty(host, DIR_MODE).(st_nlink := 2 + 2 * |subs|)
    }

    /** Every one of `subs` is an empty pattern directory under `t`. */
    ghost predicate EmptyPatternDirs(t: Directory, subs: seq<Directory>)
      reads subs
    {
      forall k :: 0 <= k < |subs| ==> EmptyPatternDir(t, subs[k])
    }

    ghost predicate Format0Tree()
      requires Valid()
      reads this, Repr
    {
      mid.tracks != [] && root.directories.Valid() && root.directories.keys == ["track"] && Top() != root
      && ChannelDir(Top(), Buckets(mid.tracks[0]))
    }

    ghost predicate Format1Tree()
      requires Valid()
      reads this, Repr
    {
      root.directories.Valid() && root.directories.keys == ["tracks"] && Top() != root && TrackDir(Top())
    }

    ghost predicate PatternTree()
      requires Valid()
      reads this, Repr
    {
      root.directories.Valid() && root.directories.keys == ["tracks"] && Top() != root && PatternDir(Top())
    }

    /** The whole tree after a successful load: HEADER.txt and one directory at the root, laid
        out as the format says. */
    ghost predicate Mounted()
      requires Valid()
      reads this, Repr
    {
      root.files == Empty().Put(HeaderName, HeaderFile(mid, host))
      && root.properties == DirProperty(host, DIR_MODE).(st_nlink := 4)
      && if mid.format == 0 then Format0Tree()
         else if mid.format == 1 then Format1Tree()
         else PatternTree()
    }

    /** The start of loading (the root and HEADER.txt); the layout is built by `Sequencer`. */
    constructor (mid: MidiFile, codec: Codec, host: Host)
      ensures Valid() && fresh(Repr) && Repr == {root}
      ensures this.mid == mid && this.codec == codec && this.host == host
      ensures root.files == Empty().Put(HeaderName, HeaderFile(mid, host))
      ensures root.directories == Empty()
      ensures root.properties == DirProperty(host, DIR_MODE).(st_nlink := 3)
      ensures fd == 1
    {
      this.mid := mid;
      this.codec := codec;
      this.host := host;
      fd := 0;
      var r := new Directory(Empty(), Empty(), DirProperty(host, DIR_MODE));
      root := r;
      Repr := {r};
      new;
      var header := HeaderText(mid.format, |mid.tracks|);
      AddFile(HeaderName, Utf8(header), root, FILE_MODE);
    }

    /** Places a new file in `dir`: one more link for `dir`, one more handle used. */
    method AddFile(name: string, data: seq<byte>, dir: Directory, mode: int)
      requires Valid() && dir in Repr
      modifies this`fd, dir
      ensures Valid()
      ensures dir.files == old(dir.files).Put(name, File(data, FileProperty(host, mode, |data|)))
      ensures dir.directories == old(dir.directories)
      ensures dir.properties == old(dir.properties).(st_nlink := old(dir.properties.st_nlink) + 1)
      ensures fd == old(fd) + 1
    {
      var size := |data|;
      dir.files := dir.files.Put(name, File(data, FileProperty(host, mode, size)));
      fd := fd + 1;
      dir.properties := dir.properties.(st_nlink := dir.properties.st_nlink + 1);
    }

    /** Places a new, empty directory in `parent`: one more link for `parent`. */
    static method AddDir(name: string, parent: Directory, mode: int, host: Host)
      modifies parent
      ensures name in parent.directories.entries
      ensures fresh(parent.directories.entries[name])
      ensures parent.directories == old(parent.directories).Put(name, parent.directories.entries[name])
      ensures var d := parent.directories.entries[name];
        d.files == Empty() && d.directories == Empty() && d.properties == DirProperty(host, mode)
      ensures parent.files == old(parent.files)
      ensures parent.properties == old(parent.properties).(st_nlink := old(parent.properties.st_nlink) + 1)
    {
      var d := new Directory(Empty(), Empty(), DirProperty(host, mode));
      parent.directories := parent.directories.Put(name, d);
      parent.properties := parent.properties.(st_nlink := parent.properties.st_nlink + 1);
    }
  
    /** The tree builder: one directory at the root, laid out as the MIDI format says, or the
        exception that building raises. */
    method Sequencer() returns (r: Result<()>)
      requires Valid() && root.directories == Empty()
      modifies this, Repr
      ensures r == BuildOutcome(mid, codec)
      ensures r.Ok? ==> (Valid() && root.files == old(root.files)
        && root.properties == old(root.properties).(st_nlink := old(root.properties.st_nlink) + 1))
      ensures r.Ok? && mid.format == 0 ==> Format0Tree() && fd == old(fd) + |Buckets(mid.tracks[0]).keys|
      ensures r.Ok? && mid.format == 1 ==> Format1Tree() && fd == old(fd) + |mid.tracks|
      ensures r.Ok? && mid.format >= 2 ==> PatternTree() && fd == old(fd) + |mid.tracks|
    {
      if mid.format == 0 {
        r := SingleTrackLayout();
      } else if mid.format == 1 {
        r := MultiTrackLayout();
      } else {
        r := PatternLayout();
      }
    }

    /** Format 0: `/track`, then one file per channel of the first track. */
    method SingleTrackLayout() returns (r: Result<()>)
      requires Valid() && root.directories == Empty() && mid.format == 0
      modifies this, Repr
      ensures r == BuildOutcome(mid, codec)
      ensures r.Ok? ==> (Valid() && root.files == old(root.files)
        && root.properties == old(root.properties).(st_nlink := old(root.properties.st_nlink) + 1)
        && Format0Tree() && fd == old(fd) + |Buckets(mid.tracks[0]).keys|)
    {
      var t := AddTopDir("track");
      if |mid.tracks| == 0 {
        return Raise(IndexError);
      }
      var track := mid.tracks[0];
      var split := SplitChannels(track);
      if split.Raise? {
        return Raise(split.exception);
      }
      WriteChannelFiles(t, split.value);
      return Ok(());
    }

    /** The loop over the buckets: file `channel{c}.mid` for each channel c, in bucket order. */
    method WriteChannelFiles(t: Directory, channels: Dict<int, Track>)
      requires Valid() && t in Repr
      requires forall i :: 0 <= i < |channels.keys| ==> channels.keys[i] in channels.entries
      requires t.files == Empty() && t.directories == Empty() && t.properties == DirProperty(host, DIR_MODE)
      modifies this`fd, t
      ensures Valid() && ChannelDir(t, channels) && fd == old(fd) + |channels.keys|
    {
      var j := 0;
      while j < |channels.keys|
        invariant 0 <= j <= |channels.keys|
        invariant forall i :: 0 <= i < j ==> channels.keys[..j][i] in channels.entries
        invariant Valid()
        invariant t.directories == Empty()
        invariant t.files == ChannelListing(channels.entries, channels.keys[..j], codec, host)
        invariant t.properties == DirProperty(host, DIR_MODE).(st_nlink := 2 + j)
        invariant fd == old(fd) + j
      {
        var ch := channels.keys[j];
        var data := codec.encode(ChannelFile(channels.entries[ch]));
        AddFile(ChannelFileName(ch), data, t, FILE_MODE);
        ChannelListingPrefixSnoc(channels.entries, channels.keys, j, codec, host);
        j := j + 1;
      }
      assert channels.keys[..j] == channels.keys;
    }

    /** Format 1: `/tracks`, then one file per track. */
    method MultiTrackLayout() returns (r: Result<()>)
      requires Valid() && root.directories == Empty() && mid.format == 1
      modifies this, Repr
      ensures r == Ok(())
      ensures Valid() && root.files == old(root.files)
        && root.properties == old(root.properties).(st_nlink := old(root.properties.st_nlink) + 1)
        && Format1Tree() && fd == old(fd) + |mid.tracks|
    {
      var t := AddTopDir("tracks");
      WriteTrackFiles(t);
      return Ok(());
    }

    /** The loop over the tracks: file `track{i}.mid` for each track i. */
    method WriteTrackFiles(t: Directory)
      requires Valid() && t in Repr
      requires t.files == Empty() && t.directories == Empty() && t.properties == DirProperty(host, DIR_MODE)
      modifies this`fd, t
      ensures Valid() && TrackDir(t) && fd == old(fd) + |mid.tracks|
    {
      var i := 0;
      while i < |mid.tracks|
        invariant 0 <= i <= |mid.tracks|
        invariant Valid()
        invariant t.directories == Empty()
        invariant t.files == TrackListing(mid.tracks[..i], mid.ticksPerBeat, codec, host)
        invariant t.properties == DirProperty(host, DIR_MODE).(st_nlink := 2 + i)
        invariant fd == old(fd) + i
      {
        var data := codec.encode(TrackFile(mid.ticksPerBeat, mid.tracks[i]));
        AddFile(TrackFileName(i), data, t, FILE_MODE);
        TrackListingSnoc(mid.tracks, i, mid.ticksPerBeat, codec, host);
        i := i + 1;
      }
      assert mid.tracks[..i] == mid.tracks;
    }

    /** Format 2 and above: `/tracks`, then the patterns. */
    method PatternLayout() returns (r: Result<()>)
      requires Valid() && root.directories == Empty() && mid.format >= 2
      modifies this, Repr
      ensures r == PatternOutcome(PatternStreams(mid, codec))
      ensures r.Ok? ==> (Valid() && root.files == old(root.files)
        && root.properties == old(root.properties).(st_nlink := old(root.properties.st_nlink) + 1)
        && PatternTree() && fd == old(fd) + |mid.tracks|)
    {
      var t := AddTopDir("tracks");
      r := WritePatterns(t);
      if r.Ok? {
        assert Top() == t;
      }
    }

    /** The loop over the tracks: per track a directory `track{i}` and a file `track{i}.mid`,
        then the channels of what playing that file yields. A channel file would go under
        `/track`, which this layout never creates, so any bucket at all raises. */
    method WritePatterns(t: Directory) returns (r: Result<()>)
      requires Valid() && t in Repr && t != root
      requires t.files == Empty() && t.directories == Empty() && t.properties == DirProperty(host, DIR_MODE)
      modifies this, t
      ensures r == PatternOutcome(PatternStreams(mid, codec))
      ensures r.Ok? ==> Valid() && Repr >= old(Repr) && fd == old(fd) + |mid.tracks| && PatternDir(t)
    {
      ghost var streams := PatternStreams(mid, codec);
      ghost var subs: seq<Directory> := [];
      var i := 0;
      while i < |mid.tracks|
        invariant 0 <= i <= |mid.tracks| && |subs| == i
        invariant Valid() && t in Repr && Repr >= old(Repr)
        invariant PatternOutcome(streams) == PatternOutcome(streams[i..])
        invariant PatternProgress(t, subs)
        invariant fd == old(fd) + i
      {
        var sub, split := AddPatternTrack(t, i, subs);
        subs := subs + [sub];
        ghost var stream := codec.play(TrackFile(mid.ticksPerBeat, mid.tracks[i]));
        assert streams[i] == stream;
        PatternOutcomeAt(streams, i);
        if split.Raise? {
          return Raise(split.exception);
        }
        BucketsEmptyIff(stream);
        if split.value.keys != [] {
          return Raise(KeyError);
        }
        i := i + 1;
      }
      assert mid.tracks[..i] == mid.tracks;
      PatternDirOf(t, subs);
      return Ok(());
    }

    /** One pass of the pattern loop takes the contents of `t` after i tracks to those after
        i + 1: file i stored, directory i stored, two more links. */
    lemma PatternStep(files: Dict<string, File>, dirs: Dict<string, Directory>, props: Property,
                      subs: seq<Directory>, i: nat)
      requires i < |mid.tracks| && |subs| == i
      requires files == TrackListing(mid.tracks[..i], mid.ticksPerBeat, codec, host)
      requires dirs == PatternDirs(subs)
      requires props == DirProperty(host, DIR_MODE).(st_nlink := 2 + 2 * i)
      ensures files.Put(TrackFileName(i), FileEntry(codec.encode(TrackFile(mid.ticksPerBeat, mid.tracks[i])), host))
        == TrackListing(mid.tracks[..i + 1], mid.ticksPerBeat, codec, host)
      ensures forall sub :: dirs.Put(TrackDirName(i), sub) == PatternDirs(subs + [sub])
      ensures props.(st_nlink := props.st_nlink + 2) == DirProperty(host, DIR_MODE).(st_nlink := 2 + 2 * (i + 1))
    {
      TrackListingSnoc(mid.tracks, i, mid.ticksPerBeat, codec, host);
      forall sub: Directory ensures dirs.Put(TrackDirName(i), sub) == PatternDirs(subs + [sub]) {
        assert (subs + [sub])[..i] == subs;
      }
    }

    /** The directory the pattern loop leaves behind is the one `PatternDir` describes. */
    lemma PatternDirOf(t: Directory, subs: seq<Directory>)
      requires |subs| == |mid.tracks| && t.directories == PatternDirs(subs)
      requires EmptyPatternDirs(t, subs)
      requires t.files == TrackListing(mid.tracks, mid.ticksPerBeat, codec, host)
      requires t.properties == DirProperty(host, DIR_MODE).(st_nlink := 2 + 2 * |mid.tracks|)
      ensures PatternDir(t)
    {
      PatternDirsSpec(subs);
    }

    /** One pass of the pattern loop: the directory `track{i}` and the file `track{i}.mid` under
        `t`, then the channel split of what playing that file yields. The pattern directories
        made before stay empty. */
    method AddPatternTrack(t: Directory, i: nat, ghost earlier: seq<Directory>) returns (sub: Directory, split: Result<Dict<int, Track>>)
      requires Valid() && t in Repr && i < |mid.tracks| && |earlier| == i
      requires PatternProgress(t, earlier)
      modifies this, t
      ensures Valid() && Repr == old(Repr) + {sub} && fresh(sub)
      ensures PatternProgress(t, earlier + [sub])
      ensures sub.files == Empty() && sub.directories == Empty() && sub.properties == DirProperty(host, DIR_MODE)
      ensures t.directories == old(t.directories).Put(TrackDirName(i), sub)
      ensures t.files == old(t.files).Put(TrackFileName(i), FileEntry(codec.encode(TrackFile(mid.ticksPerBeat, mid.tracks[i])), host))
      ensures t.properties == old(t.properties).(st_nlink := old(t.properties.st_nlink) + 2)
      ensures fd == old(fd) + 1
      ensures var stream := codec.play(TrackFile(mid.ticksPerBeat, mid.tracks[i]));
        split == if Splittable(stream) then Ok(Buckets(stream)) else Raise(AttributeError)
    {
      PatternStep(t.files, t.directories, t.properties, earlier, i);
      sub := AddPatternDir(t, i, earlier);
      ghost var subs := earlier + [sub];
      assert t !in subs;
      var trackFile := TrackFile(mid.ticksPerBeat, mid.tracks[i]);
      AddFile(TrackFileName(i), codec.encode(trackFile), t, FILE_MODE);
      assert EmptyPatternDirs(t, subs);
      split := SplitChannels(codec.play(trackFile));
    }

    /** The directory `track{i}` under `t`, made part of the tree; the pattern directories made
        before stay empty, and so does the new one. */
    method AddPatternDir(t: Directory, i: nat, ghost earlier: seq<Directory>) returns (sub: Directory)
      requires Valid() && t in Repr
      requires EmptyPatternDirs(t, earlier)
      modifies this`Repr, t
      ensures Valid() && Repr == old(Repr) + {sub} && fresh(sub) && t in Repr
      ensures EmptyPatternDirs(t, earlier + [sub])
      ensures sub.files == Empty() && sub.directories == Empty() && sub.properties == DirProperty(host, DIR_MODE)
      ensures t.directories == old(t.directories).Put(TrackDirName(i), sub)
      ensures t.files == old(t.files)
      ensures t.properties == old(t.properties).(st_nlink := old(t.properties.st_nlink) + 1)
    {
      assert t !in earlier;
      AddDir(TrackDirName(i), t, DIR_MODE, host);
      sub := t.directories.entries[TrackDirName(i)];
      Repr := Repr + {sub};
      assert t.directories.entries.Values <= old(t.directories.entries.Values) + {sub};
      assert EmptyPatternDirs(t, earlier);
      forall k | 0 <= k < |earlier + [sub]|
        ensures EmptyPatternDir(t, (earlier + [sub])[k])
      {
        if k < |earlier| {
          assert (earlier + [sub])[k] == earlier[k];
        }
      }
    }
  
    /** The one directory the builder places at the root. */
    method AddTopDir(name: string) returns (t: Directory)
      requires Valid() && root.directories == Empty()
      modifies this, root
      ensures Valid() && fresh(t) && Repr == old(Repr) + {t} && fd == old(fd)
      ensures root.directories.Valid() && root.directories.keys == [name] && root.directories.entries[name] == t
      ensures Top() == t
      ensures root.files == old(root.files)
      ensures root.properties == old(root.properties).(st_nlink := old(root.properties.st_nlink) + 1)
      ensures t.files == Empty() && t.directories == Empty() && t.properties == DirProperty(host, DIR_MODE)
    {
      AddDir(name, root, DIR_MODE, host);
      t := root.directories.entries[name];
      Repr := Repr + {t};
      assert root.directories.entries.Values == {t};
    }
  
    /** The directory reached from `d` by following `segs` through sub-directories; None at the
        first name that is not a sub-directory of the one reached so far. */
    ghost function Walk(d: Directory, segs: seq<string>): (r: Option<Directory>)
      requires Valid() && d in Repr
      reads this, Repr
      ensures r.Some? ==> r.value in Repr
      decreases |segs|
    {
      if segs == [] then Some(d)
      else if segs[0] in d.directories.entries then
        var next := d.directories.entries[segs[0]];
        assert next in d.directories.entries.Values;
        Walk(next, segs[1..])
      else None
    }

    /** The directory `path` names. */
    ghost function ResolveDir(path: string): (r: Option<Directory>)
      requires Valid()
      reads this, Repr
      ensures r.Some? ==> r.value in Repr
    {
      Walk(root, DirSegments(path))
    }

    /** The file `path` names: looked up among the files of its parent directory only, failing
        outright when the parent does not resolve. */
    ghost function ResolveFile(path: string): Result<Option<File>>
      requires Valid()
      reads this, Repr
    {
      match FileRefOf(path)
      case EmptyPath => Raise(IndexError)
      case TrailingSlash => Ok(None)
      case Entry(parent, name) =>
        match ResolveDir(parent)
        case None => Raise(AttributeError)
        case Some(d) => if name in d.files.entries then Ok(Some(d.files.entries[name])) else Ok(None)
    }

    /** The metadata of what `path` names: a file first, else a directory, else ENOENT. */
    ghost function Attributes(path: string): Result<Property>
      requires Valid()
      reads this, Repr
    {
      match ResolveFile(path)
      case Raise(e) => Raise(e)
      case Ok(Some(f)) => Ok(f.properties)
      case Ok(None) =>
        match ResolveDir(path)
        case Some(d) => Ok(d.properties)
        case None => Raise(FuseOSError(ENOENT))
    }

    /** The entries of the directory `path` names: `.`, `..`, its files, then its sub-directories. */
    ghost function Listing(path: string): Result<seq<string>>
      requires Valid()
      reads this, Repr
    {
      match ResolveDir(path)
      case None => Raise(AttributeError)
      case Some(d) => Ok([".", ".."] + d.files.keys + d.directories.keys)
    }

    /** The bytes `read` answers with: the slice `data[offset:offset + size]` of the file. */
    ghost function ReadResult(path: string, size: int, offset: int): Result<seq<byte>>
      requires Valid()
      reads this, Repr
    {
      match ResolveFile(path)
      case Raise(e) => Raise(e)
      case Ok(None) => Raise(AttributeError)
      case Ok(Some(f)) => Ok(Slice(f.data, offset, offset + size))
    }

    /** get_dir: strips trailing '/', splits on '/', and walks the names after the first. */
    method GetDir(path: string) returns (r: Option<Directory>)
      requires Valid()
      ensures r == ResolveDir(path)
    {
      var stripped := RStrip(path, '/');
      var pathArray := Split(stripped, '/');
      if |pathArray| <= 1 {
        return Some(root);
      }
      pathArray := pathArray[1..];
      var location := root;
      while pathArray != []
        invariant location in Repr
        invariant Walk(location, pathArray) == ResolveDir(path)
        decreases |pathArray|
      {
        var dirPath := pathArray[0];
        pathArray := pathArray[1..];
        if dirPath in location.directories.entries {
          location := location.directories.entries[dirPath];
        } else {
          return None;
        }
      }
      return Some(location);
    }

    /** get_file */
    method GetFile(path: string) returns (r: Result<Option<File>>)
      requires Valid()
      ensures r == ResolveFile(path)
    {
      if |path| == 0 {
        return Raise(IndexError);
      }
      if path[|path| - 1] == '/' {
        return Ok(None);
      }
      var pathArray := Split(path, '/');
      var fileName := pathArray[|pathArray| - 1];
      pathArray := pathArray[..|pathArray| - 1];
      var dirName := Join(pathArray, '/');
      var location := GetDir(dirName);
      if location.None? {
        return Raise(AttributeError);
      }
      if fileName in location.value.files.entries {
        return Ok(Some(location.value.files.entries[fileName]));
      }
      return Ok(None);
    }

    /** getattr */
    method GetAttr(path: string) returns (r: Result<Property>)
      requires Valid()
      ensures r == Attributes(path)
    {
      var st := GetFile(path);
      if st.Raise? {
        return Raise(st.exception);
      }
      if st.value.Some? {
        return Ok(st.value.value.properties);
      }
      var dir := GetDir(path);
      if dir.None? {
        return Raise(FuseOSError(ENOENT));
      }
      return Ok(dir.value.properties);
    }

    /** readdir */
    method ReadDir(path: string) returns (r: Result<seq<string>>)
      requires Valid()
      ensures r == Listing(path)
    {
      var st := GetDir(path);
      if st.None? {
        return Raise(AttributeError);
      }
      return Ok([".", ".."] + st.value.files.keys + st.value.directories.keys);
    }

    /** read */
    method Read(path: string, size: int, offset: int) returns (r: Result<seq<byte>>)
      requires Valid()
      ensures r == ReadResult(path, size, offset)
    {
      var fileObj := GetFile(path);
      if fileObj.Raise? {
        return Raise(fileObj.exception);
      }
      if fileObj.value.None? {
        return Raise(AttributeError);
      }
      return Ok(Slice(fileObj.value.value.data, offset, offset + size));
    }

    /** open: the next handle, whatever the path and flags. */
    method Open(path: string, flags: int) returns (handle: int)
      modifies this`fd
      ensures fd == old(fd) + 1 && handle == fd
    {
      fd := fd + 1;
      handle := fd;
    }
  
    /** Walking a path in two parts: the second part is walked from where the first ends, and a
        missing name anywhere means no directory at all. */
    lemma {:induction false} WalkAppend(d: Directory, a: seq<string>, b: seq<string>)
      requires Valid() && d in Repr
      ensures Walk(d, a + b) == match Walk(d, a) case None => None case Some(e) => Walk(e, b)
      decreases |a|
    {
      if a == [] {
        assert a + b == b;
      } else {
        assert (a + b)[0] == a[0] && (a + b)[1..] == a[1..] + b;
        if a[0] in d.directories.entries {
          var next := d.directories.entries[a[0]];
          assert next in d.directories.entries.Values;
          WalkAppend(next, a[1..], b);
        }
      }
    }

    /** No partial match: once a name is missing, the whole path resolves to nothing. */
    lemma WalkStopsAtMissingName(d: Directory, segs: seq<string>, k: nat)
      requires Valid() && d in Repr && k < |segs|
      requires Walk(d, segs[..k]).Some? && segs[k] !in Walk(d, segs[..k]).value.directories.entries
      ensures Walk(d, segs) == None
    {
      WalkAppend(d, segs[..k], segs[k..]);
      assert segs[..k] + segs[k..] == segs;
    }

    /** Trailing separators do not change the directory a path names. */
    lemma ResolveDirIgnoresTrailingSlashes(path: string, n: nat)
      requires Valid()
      ensures ResolveDir(path + seq(n, _ => '/')) == ResolveDir(path)
    {
      DirSegmentsIgnoreTrailingSlashes(path, n);
    }

    /** "", "/" and any path with no '/' before its trailing ones name the root. */
    lemma ResolveDirOfRootPaths(path: string)
      requires Valid()
      ensures '/' !in RStrip(path, '/') ==> ResolveDir(path) == Some(root)
      ensures ResolveDir("") == Some(root) && ResolveDir("/") == Some(root)
    {
      DirSegmentsOfRootPaths(path);
    }

    /** An absolute path of non-empty names is walked name by name from the root. */
    lemma ResolveDirOfAbsolutePath(segs: seq<string>)
      requires Valid() && NoSep(segs, '/') && NoEmpty(segs)
      ensures ResolveDir(AbsolutePath(segs)) == Walk(root, segs)
    {
      DirSegmentsOfAbsolutePath(segs);
    }

    /** A file path is looked up among the files of the directory its parent names, and fails
        outright when that directory does not exist. */
    lemma ResolveFileOfAbsolutePath(dirs: seq<string>, name: string)
      requires Valid() && NoSep(dirs + [name], '/') && NoEmpty(dirs + [name])
      ensures ResolveFile(AbsolutePath(dirs + [name])) ==
        match Walk(root, dirs)
        case None => Raise(AttributeError)
        case Some(d) => Ok(if name in d.files.entries then Some(d.files.entries[name]) else None)
    {
      FileRefOfAbsolutePath(dirs, name);
    }

    /** An empty path makes get_file raise; a path ending in '/' is never a file. */
    lemma ResolveFileOfDirectoryPaths(path: string)
      requires Valid()
      ensures ResolveFile("") == Raise(IndexError)
      ensures path != "" && path[|path| - 1] == '/' ==> ResolveFile(path) == Ok(None)
    {
    }

    /** Reads clip to the data and never pad: for a non-negative offset and size the answer is
        the part of the file from `offset`, at most `size` bytes long. */
    lemma ReadClips(path: string, size: int, offset: int)
      requires Valid() && ResolveFile(path).Ok? && ResolveFile(path).value.Some?
      requires 0 <= offset && 0 <= size
      ensures var data := ResolveFile(path).value.value.data;
        ReadResult(path, size, offset).Ok?
        && |ReadResult(path, size, offset).value| == (if offset >= |data| then 0 else Min(size, |data| - offset))
        && ReadResult(path, size, offset).value == data[Min(offset, |data|)..Min(offset, |data|) + |ReadResult(path, size, offset).value|]
    {
    }

    /** The root of a mounted tree: its metadata (four links: itself, `.`, HEADER.txt and the
        one directory) and its listing. */
    lemma RootQueries()
      requires Valid() && Mounted()
      ensures Attributes("/") == Ok(DirProperty(host, DIR_MODE).(st_nlink := 4))
      ensures Listing("/") == Ok([".", "..", HeaderName, TopName(mid.format)])
    {
      MountedShape();
      RootPath();
      assert [".", ".."] + [HeaderName] + [TopName(mid.format)] == [".", "..", HeaderName, TopName(mid.format)];
    }

    /** "/" names the root directory and no file. */
    lemma RootPath()
      requires Valid()
      ensures ResolveDir("/") == Some(root) && ResolveFile("/") == Ok(None)
      ensures Listing("/") == Ok([".", ".."] + root.files.keys + root.directories.keys)
      ensures Attributes("/") == Ok(root.properties)
    {
      ResolveDirOfRootPaths("/");
      assert FileRefOf("/") == TrailingSlash;
    }

    /** What every format has in common at the root. */
    lemma MountedShape()
      requires Valid() && Mounted()
      ensures root.files.keys == [HeaderName] && root.files.entries[HeaderName] == HeaderFile(mid, host)
      ensures root.directories.Valid() && root.directories.keys == [TopName(mid.format)]
      ensures Top() == root.directories.entries[TopName(mid.format)] && Top() != root
    {
      if mid.format == 0 {
        assert Format0Tree();
      } else if mid.format == 1 {
        assert Format1Tree();
      } else {
        assert PatternTree();
      }
    }

    /** A name directly under the root: looked up among the root's files, and among its
        sub-directories. */
    lemma RootEntry(name: string)
      requires Valid() && '/' !in name && name != ""
      ensures ResolveFile("/" + name) == Ok(if name in root.files.entries then Some(root.files.entries[name]) else None)
      ensures ResolveDir("/" + name) == (if name in root.directories.entries then Some(root.directories.entries[name]) else None)
    {
      AbsolutePathsSpelledOut(name, "");
      assert [] + [name] == [name];
      ResolveFileOfAbsolutePath([], name);
      ResolveDirOfAbsolutePath([name]);
      assert [name][1..] == [];
    }

    /** HEADER.txt is the file the root holds under that name. */
    lemma HeaderLookup()
      requires Valid() && Mounted()
      ensures ResolveFile("/" + HeaderName) == Ok(Some(HeaderFile(mid, host)))
    {
      HeaderNameIsPathComponent();
      RootEntry(HeaderName);
      MountedShape();
    }

    /** HEADER.txt: a read-only regular file whose size is the length of the header text, and
        whose whole contents are that text's bytes. */
    lemma HeaderQueries()
      requires Valid() && Mounted()
      ensures var text := HeaderText(mid.format, |mid.tracks|);
        Attributes("/" + HeaderName) == Ok(FileProperty(host, FILE_MODE, |text|))
        && ReadResult("/" + HeaderName, |text|, 0) == Ok(Utf8(text))
    {
      HeaderLookup();
      var text := HeaderText(mid.format, |mid.tracks|);
      HeaderIsAscii(mid.format, |mid.tracks|);
      var data := Utf8(text);
      assert Slice(data, 0, |text|) == data;
    }

    /** The prefixes of the paths below the top directories, written out piece by piece. */
    lemma PrefixesSpelledOut()
      ensures "/track/" == "/" + "track" + "/" && "/tracks/" == "/" + "tracks" + "/"
      ensures "/track" == "/" + "track" && "/tracks" == "/" + "tracks"
    {
    }

    /** A name inside a directory of the root: looked up among that directory's files, and
        among its sub-directories. */
    lemma SubEntry(dir: string, name: string)
      requires Valid() && '/' !in dir && dir != "" && '/' !in name && name != ""
      requires dir in root.directories.entries
      ensures ResolveDir("/" + dir) == Some(root.directories.entries[dir])
      ensures var d := root.directories.entries[dir];
        ResolveFile("/" + dir + "/" + name) == Ok(if name in d.files.entries then Some(d.files.entries[name]) else None)
      ensures var d := root.directories.entries[dir];
        ResolveDir("/" + dir + "/" + name) == (if name in d.directories.entries then Some(d.directories.entries[name]) else None)
    {
      var d := root.directories.entries[dir];
      assert d in root.directories.entries.Values;
      AbsolutePathsSpelledOut(dir, name);
      ResolveDirOfAbsolutePath([dir]);
      assert Walk(root, [dir]) == Walk(d, []);
      assert [dir] + [name] == [dir, name];
      ResolveFileOfAbsolutePath([dir], name);
      ResolveDirOfAbsolutePath([dir, name]);
      WalkAppend(root, [dir], [name]);
      if name in d.directories.entries {
        var e := d.directories.entries[name];
        assert e in d.directories.entries.Values;
        assert Walk(d, [name]) == Walk(e, []);
      }
    }

    /** Format 0: what `/track` holds. */
    lemma TrackDirShape()
      requires Valid() && Mounted() && mid.format == 0
      ensures "track" in root.directories.entries && Top() == root.directories.entries["track"]
      ensures Top().files.keys == ChannelFileNames(Buckets(mid.tracks[0]).keys) && Top().directories.keys == []
      ensures Top().properties == DirProperty(host, DIR_MODE).(st_nlink := 2 + |Buckets(mid.tracks[0]).keys|)
    {
      MountedShape();
      assert Format0Tree();
      BucketsShape(mid.tracks[0]);
      ChannelListingNames(Buckets(mid.tracks[0]), codec, host);
    }

    /** Format 0: `/track` lists one file per channel bucket, in order of each channel's first
        use; its link count is 2 plus its entries. */
    lemma TrackDirQueries()
      requires Valid() && Mounted() && mid.format == 0
      ensures var b := Buckets(mid.tracks[0]);
        Listing("/track") == Ok([".", ".."] + ChannelFileNames(b.keys))
        && Attributes("/track") == Ok(DirProperty(host, DIR_MODE).(st_nlink := 2 + |b.keys|))
    {
      TrackDirShape();
      TopNameIsPathComponent(mid.format);
      RootEntry("track");
      PrefixesSpelledOut();
      var t := Top();
      assert [".", ".."] + t.files.keys + t.directories.keys == [".", ".."] + t.files.keys;
    }

    /** Format 0: `/track/channel{c}.mid` exists exactly for the channels some event of the
        track is assigned to, and holds the encoding of that channel's bucket. */
    lemma ChannelFileQueries(c: int)
      requires Valid() && Mounted() && mid.format == 0
      ensures var b := Buckets(mid.tracks[0]);
        Attributes("/track/" + ChannelFileName(c)) ==
          if c in b.entries then Ok(FileEntry(codec.encode(ChannelFile(b.entries[c])), host).properties)
          else Raise(FuseOSError(ENOENT))
    {
      var b := Buckets(mid.tracks[0]);
      var name := ChannelFileName(c);
      MountedShape();
      assert Format0Tree();
      GeneratedNamesArePathComponents(c, 0);
      SubEntry("track", name);
      PrefixesSpelledOut();
      BucketsShape(mid.tracks[0]);
      ChannelListingLookup(b, codec, host, c);
    }

    /** Formats 1 and up: what `/tracks` holds. */
    lemma TracksShape()
      requires Valid() && Mounted() && mid.format != 0
      ensures "tracks" in root.directories.entries && Top() == root.directories.entries["tracks"]
      ensures Top().files == TrackListing(mid.tracks, mid.ticksPerBeat, codec, host)
      ensures Top().directories.Valid()
      ensures Top().directories.keys == if mid.format == 1 then [] else TrackDirNames(|mid.tracks|)
      ensures Top().properties == DirProperty(host, DIR_MODE).(st_nlink := 2 + |Top().directories.keys| + |mid.tracks|)
    {
      MountedShape();
      if mid.format == 1 {
        assert Format1Tree();
      } else {
        PatternTracksShape();
      }
    }

    /** `/tracks` of the independent-pattern layout, its directories named in track order. */
    lemma PatternTracksShape()
      requires Valid() && Mounted() && mid.format >= 2
      ensures "tracks" in root.directories.entries && Top() == root.directories.entries["tracks"]
      ensures Top().files == TrackListing(mid.tracks, mid.ticksPerBeat, codec, host)
      ensures Top().directories.Valid()
      ensures Top().directories.keys == TrackDirNames(|mid.tracks|)
      ensures Top().properties == DirProperty(host, DIR_MODE).(st_nlink := 2 + 2 * |mid.tracks|)
    {
      assert PatternTree();
      var t := Top();
      assert PatternDir(t);
      assert t.directories.keys == TrackDirNames(|mid.tracks|);
    }

    /** Formats 1 and up: `/tracks/track{i}.mid` holds the encoding of track i alone for each
        track, and no other index names a file. */
    lemma TrackFileQueries(i: nat, size: int, offset: int)
      requires Valid() && Mounted() && mid.format != 0
      ensures i < |mid.tracks| ==>
        var data := codec.encode(TrackFile(mid.ticksPerBeat, mid.tracks[i]));
        Attributes("/tracks/" + TrackFileName(i)) == Ok(FileProperty(host, FILE_MODE, |data|))
        && ReadResult("/tracks/" + TrackFileName(i), size, offset) == Ok(Slice(data, offset, offset + size))
      ensures i >= |mid.tracks| ==>
        Attributes("/tracks/" + TrackFileName(i)) == Raise(FuseOSError(ENOENT))
        && ReadResult("/tracks/" + TrackFileName(i), size, offset) == Raise(AttributeError)
    {
      if i < |mid.tracks| {
        TrackFilePresent(i);
      } else {
        TrackFileAbsent(i);
      }
    }

    lemma TrackFilePresent(i: nat)
      requires Valid() && Mounted() && mid.format != 0 && i < |mid.tracks|
      ensures ResolveFile("/tracks/" + TrackFileName(i))
        == Ok(Some(FileEntry(codec.encode(TrackFile(mid.ticksPerBeat, mid.tracks[i])), host)))
    {
      TracksShape();
      GeneratedNamesArePathComponents(0, i);
      SubEntry("tracks", TrackFileName(i));
      PrefixesSpelledOut();
      TrackListingHas(mid.tracks, mid.ticksPerBeat, codec, host, i);
    }

    lemma TrackFileAbsent(i: nat)
      requires Valid() && Mounted() && mid.format != 0 && i >= |mid.tracks|
      ensures ResolveFile("/tracks/" + TrackFileName(i)) == Ok(None)
      ensures ResolveDir("/tracks/" + TrackFileName(i)) == None
    {
      var name := TrackFileName(i);
      TracksShape();
      GeneratedNamesArePathComponents(0, i);
      SubEntry("tracks", name);
      PrefixesSpelledOut();
      forall j | 0 <= j < |mid.tracks| ensures name != TrackFileName(j) {
        TrackNamesInjective(i, j);
      }
      TrackListingLacks(mid.tracks, mid.ticksPerBeat, codec, host, name);
      forall k | 0 <= k < |mid.tracks| ensures TrackDirName(k) != name {
        TrackFileIsNotTrackDir(i, k);
      }
      assert name !in Top().directories.keys;
    }

    /** Formats 1 and up: `/tracks` lists the track files in track order, then (from format 2)
        the pattern directories in track order; its link count is 2 plus its entries. */
    lemma TracksQueries()
      requires Valid() && Mounted() && mid.format != 0
      ensures var n := |mid.tracks|;
        Listing("/tracks") == Ok([".", ".."] + TrackFileNames(n) + (if mid.format == 1 then [] else TrackDirNames(n)))
      ensures var n := |mid.tracks|;
        Attributes("/tracks") == Ok(DirProperty(host, DIR_MODE).(st_nlink := if mid.format == 1 then 2 + n else 2 + 2 * n))
    {
      TracksShape();
      MountedShape();
      TrackListingNames(mid.tracks, mid.ticksPerBeat, codec, host);
      TopNameIsPathComponent(mid.format);
      RootEntry("tracks");
      PrefixesSpelledOut();
    }

    /** Format 2 and up: each `/tracks/track{i}` is an empty directory with two links. */
    lemma PatternDirQueries(i: nat)
      requires Valid() && Mounted() && mid.format >= 2 && i < |mid.tracks|
      ensures Listing("/tracks/" + TrackDirName(i)) == Ok([".", ".."])
      ensures Attributes("/tracks/" + TrackDirName(i)) == Ok(DirProperty(host, DIR_MODE))
    {
      var name := TrackDirName(i);
      TracksShape();
      assert PatternTree();
      GeneratedNamesArePathComponents(0, i);
      SubEntry("tracks", name);
      PrefixesSpelledOut();
      forall j | 0 <= j < |mid.tracks| ensures name != TrackFileName(j) {
        TrackFileIsNotTrackDir(j, i);
      }
      TrackListingLacks(mid.tracks, mid.ticksPerBeat, codec, host, name);
      var sub := Top().directories.entries[name];
      assert EmptyPatternDir(Top(), sub);
      EmptyDirectoryListing(sub);
    }

    /** An empty directory lists only `.` and `..`. */
    static lemma EmptyDirectoryListing(d: Directory)
      requires d.files == Empty() && d.directories == Empty()
      ensures [".", ".."] + d.files.keys + d.directories.keys == [".", ".."]
    {
      assert d.files.keys == [] && d.directories.keys == [];
    }

    /** Every directory of a mounted tree has two links plus one per entry it holds. */
    lemma MountedLinkCounts()
      requires Valid() && Mounted()
      ensures CountsLinks(root) && CountsLinks(Top())
      ensures mid.format >= 2 ==> forall i :: 0 <= i < |mid.tracks| ==>
        TrackDirName(i) in Top().directories.entries && CountsLinks(Top().directories.entries[TrackDirName(i)])
    {
      MountedShape();
      if mid.format == 0 {
        assert Format0Tree();
        var b := Buckets(mid.tracks[0]);
        BucketsShape(mid.tracks[0]);
        ChannelListingLookup(b, codec, host, 0);
        ChannelListingSpec(b.entries, b.keys, codec, host);
      } else {
        TracksShape();
        TrackListingNames(mid.tracks, mid.ticksPerBeat, codec, host);
        if mid.format >= 2 {
          assert PatternTree();
        }
      }
    }

    /** Listing a file does not fail with "not a directory": the walk finds no such directory and
        the lookup on nothing raises. */
    lemma ListingOfFileRaises()
      requires Valid() && Mounted()
      ensures Listing("/" + HeaderName) == Raise(AttributeError)
    {
      HeaderNameIsPathComponent();
      TopNameIsPathComponent(mid.format);
      RootEntry(HeaderName);
      MountedShape();
    }

    /** A path under a directory that does not exist makes getattr and read fail outright
        instead of answering ENOENT. */
    lemma MissingParentRaises(dir: string, leaf: string, size: int, offset: int)
      requires Valid() && NoSep([dir, leaf], '/') && NoEmpty([dir, leaf])
      requires dir !in root.directories.entries
      ensures Attributes(AbsolutePath([dir, leaf])) == Raise(AttributeError)
      ensures ReadResult(AbsolutePath([dir, leaf]), size, offset) == Raise(AttributeError)
    {
      assert [dir] + [leaf] == [dir, leaf];
      ResolveFileOfAbsolutePath([dir], leaf);
    }
  }

  function Min(a: int, b: int): int
  {
    if a < b then a else b
  }

  /** Mounting a MIDI file: the root and HEADER.txt, then the layout its format asks for.
      A raised exception means nothing is mounted. */
  method Load(mid: MidiFile, codec: Codec, host: Host) returns (r: Result<MidiSequencer>)
    ensures r.Raise? <==> BuildOutcome(mid, codec).Raise?
    ensures r.Raise? ==> r.exception == BuildOutcome(mid, codec).exception
    ensures r.Ok? ==> fresh(r.value) && r.value.Valid() && r.value.Mounted()
    ensures r.Ok? ==> r.value.mid == mid && r.value.codec == codec && r.value.host == host
    ensures r.Ok? ==> r.value.fd == 1 + (if mid.format == 0 then |Buckets(mid.tracks[0]).keys| else |mid.tracks|)
  {
    var s := new MidiSequencer(mid, codec, host);
    var outcome := s.Sequencer();
    if outcome.Raise? {
      return Raise(outcome.exception);
    }
    return Ok(s);
  }
}
