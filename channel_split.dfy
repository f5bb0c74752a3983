/** Splitting one track into per-channel tracks, following a "current channel" that
    channel messages and channel_prefix meta events set. */
module ChannelSplit {
  import opened Wrappers
  import opened PyDict
  import opened Midi

  const ChannelPrefix := "channel_prefix"

  /** The channel an event makes current, if it makes one current. */
  function Sets(e: Event): Option<int>
  {
    match e
    case Message(_, ch, _) => ch
    case MetaMessage(kind, data, _) => if kind == ChannelPrefix then data else None
  }

  /** The splitter reads `.channel` of every non-meta event and `.data` of every
      `channel_prefix` event; an event without the attribute read from it makes it raise. */
  predicate HasChannel(e: Event)
  {
    match e
    case Message(_, ch, _) => ch.Some?
    case MetaMessage(kind, data, _) => kind != ChannelPrefix || data.Some?
  }

  predicate Splittable(t: Track)
  {
    forall i :: 0 <= i < |t| ==> HasChannel(t[i])
  }

  /** The current channel just before event `i` of `t`. */
  function Context(t: Track, i: nat): int
    requires i <= |t|
    decreases i
  {
    if i == 0 then 0
    else match Sets(t[i - 1])
      case Some(c) => c
      case None => Context(t, i - 1)
  }

  /** The channel whose bucket event `i` goes to. */
  function Label(t: Track, i: nat): int
    requires i < |t|
  {
    match Sets(t[i])
    case Some(c) => c
    case None => Context(t, i)
  }

  function Labels(t: Track): (l: seq<int>)
    ensures |l| == |t|
  {
    seq(|t|, i requires 0 <= i < |t| => Label(t, i))
  }

  /** The events of `t` labelled `c` in `l`, in track order. */
  function Select(t: Track, l: seq<int>, c: int): Track
    requires |t| == |l|
    decreases |t|
  {
    if t == [] then []
    else Select(t[..|t| - 1], l[..|l| - 1], c) + (if l[|l| - 1] == c then [t[|t| - 1]] else [])
  }

  /** How many times `c` occurs in `l`. */
  function Count(l: seq<int>, c: int): nat
    decreases |l|
  {
    if l == [] then 0 else Count(l[..|l| - 1], c) + (if l[|l| - 1] == c then 1 else 0)
  }

  /** The values of `l`, each once, in the order of their first occurrence. */
  function Dedup(l: seq<int>): seq<int>
    decreases |l|
  {
    if l == [] then []
    else
      var d := Dedup(l[..|l| - 1]);
      if l[|l| - 1] in d then d else d + [l[|l| - 1]]
  }

  /** Dedup keeps exactly the values of `l`. */
  lemma {:induction false} DedupMember(l: seq<int>, c: int)
    ensures c in Dedup(l) <==> c in l
    decreases |l|
  {
    if l != [] {
      DedupMember(l[..|l| - 1], c);
      assert l == l[..|l| - 1] + [l[|l| - 1]];
    }
  }

  /** Dedup keeps every value of `l` exactly once. */
  lemma {:induction false} DedupSpec(l: seq<int>)
    ensures Distinct(Dedup(l))
    ensures forall c :: c in Dedup(l) <==> c in l
    decreases |l|
  {
    forall c ensures c in Dedup(l) <==> c in l {
      DedupMember(l, c);
    }
    if l != [] {
      DedupSpec(l[..|l| - 1]);
    }
  }

  /** The buckets after the first `n` events of `t`, labelled by `l`: one per label used,
      in first-use order, each holding the events with that label in track order. */
  function BucketsUpTo(t: Track, l: seq<int>, n: nat): Dict<int, Track>
    requires |t| == |l| && n <= |t|
  {
    Dict(Dedup(l[..n]), map c | c in Dedup(l[..n]) :: Select(t[..n], l[..n], c))
  }

  /** What splitting `t` yields. */
  function Buckets(t: Track): Dict<int, Track>
  {
    BucketsUpTo(t, Labels(t), |t|)
  }

  /** The splitting loop: walks `track` once, keeping the current channel `ch` (0 at first);
      a channel message sets `ch` to its channel, a channel_prefix to its data; every event
      is appended to the bucket of `ch`, which is created on first use. A non-meta message
      without a channel, or a channel_prefix without data, raises. */
  method SplitChannels(track: Track) returns (r: Result<Dict<int, Track>>)
    ensures Splittable(track) ==> r == Ok(Buckets(track))
    ensures !Splittable(track) ==> r == Raise(AttributeError)
  {
    ghost var l := Labels(track);
    var channels: Dict<int, Track> := Empty();
    var ch := 0;
    var i := 0;
    while i < |track|
      invariant 0 <= i <= |track|
      invariant forall j :: 0 <= j < i ==> HasChannel(track[j])
      invariant ch == Context(track, i)
      invariant channels == BucketsUpTo(track, l, i)
    {
      var msg := track[i];
      if !msg.MetaMessage? {
        if msg.channel.None? {
          assert !HasChannel(track[i]);
          return Raise(AttributeError);
        }
        ch := msg.channel.value;
        assert Sets(msg) == Some(ch);
      } else if msg.kind == ChannelPrefix {
        if msg.data.None? {
          assert !HasChannel(track[i]);
          return Raise(AttributeError);
        }
        ch := msg.data.value;
        assert Sets(msg) == Some(ch);
      } else {
        assert Sets(msg) == None;
      }
      SplitStep(track, i);
      assert forall j :: 0 <= j < i + 1 ==> HasChannel(track[j]) by {
        assert HasChannel(track[i]);
      }
      BucketsStep(track, l, i);
      assert ch == l[i];
      if ch !in channels.entries {
        channels := channels.Put(ch, []);
      }
      channels := channels.Put(ch, channels.entries[ch] + [msg]);
      i := i + 1;
    }
    return Ok(channels);
  }

  /** The channel an event goes to is the one current after it. */
  lemma SplitStep(t: Track, i: nat)
    requires i < |t|
    ensures Context(t, i + 1) == Label(t, i) == Labels(t)[i]
  {
  }

  /** One more event is appended to the bucket of its label, which is created if it is new. */
  lemma BucketsStep(t: Track, l: seq<int>, n: nat)
    requires |t| == |l| && n < |t|
    ensures BucketsUpTo(t, l, n).Valid()
    ensures
      var b := BucketsUpTo(t, l, n);
      var c := l[n];
      var b' := if c in b.entries then b else b.Put(c, []);
      BucketsUpTo(t, l, n + 1) == b'.Put(c, b'.entries[c] + [t[n]])
  {
    var b := BucketsUpTo(t, l, n);
    var c := l[n];
    DedupSpec(l[..n]);
    DedupMember(l[..n], c);
    DedupSnoc(l, n);
    if c !in b.entries {
      SelectAbsent(t[..n], l[..n], c);
    }
    var after := BucketsUpTo(t, l, n + 1);
    forall k | k in after.entries
      ensures after.entries[k] == (if k == c then (if c in b.entries then b.entries[c] else []) + [t[n]] else b.entries[k])
    {
      SelectSnoc(t, l, n, k);
    }
    AppendStep(b, c, t[n], after);
  }

  /** A dict of buckets that differs from `b` only by `x` appended to the bucket of `c`,
      created empty if it is new, is what the splitter's two stores leave. */
  lemma AppendStep(b: Dict<int, Track>, c: int, x: Event, after: Dict<int, Track>)
    requires after.keys == if c in b.entries then b.keys else b.keys + [c]
    requires forall k :: k in after.entries <==> k in b.entries || k == c
    requires forall k :: k in after.entries ==>
      after.entries[k] == (if k == c then (if c in b.entries then b.entries[c] else []) + [x] else b.entries[k])
    ensures
      var b' := if c in b.entries then b else b.Put(c, []);
      after == b'.Put(c, b'.entries[c] + [x])
  {
    var b' := if c in b.entries then b else b.Put(c, []);
    var put := b'.Put(c, b'.entries[c] + [x]);
    assert forall k :: k in put.entries <==> k in b.entries || k == c;
    forall k | k in put.entries ensures k in after.entries && after.entries[k] == put.entries[k] {
      if k == c {
        assert put.entries[k] == b'.entries[c] + [x];
      } else {
        assert put.entries[k] == b'.entries[k] == b.entries[k];
      }
    }
    assert after.entries == put.entries;
    assert after.keys == put.keys;
  }

  /** The labels in first-use order, one label more. */
  lemma DedupSnoc(l: seq<int>, n: nat)
    requires n < |l|
    ensures Dedup(l[..n + 1]) == if l[n] in Dedup(l[..n]) then Dedup(l[..n]) else Dedup(l[..n]) + [l[n]]
  {
    assert l[..n + 1][..n] == l[..n];
  }

  /** The selection, one event more. */
  lemma SelectSnoc(t: Track, l: seq<int>, n: nat, k: int)
    requires |t| == |l| && n < |t|
    ensures Select(t[..n + 1], l[..n + 1], k) == Select(t[..n], l[..n], k) + (if l[n] == k then [t[n]] else [])
  {
    assert t[..n + 1][..n] == t[..n] && l[..n + 1][..n] == l[..n];
  }

  /** Nothing is selected for a label that does not occur. */
  lemma {:induction false} SelectAbsent(t: Track, l: seq<int>, c: int)
    requires |t| == |l| && c !in l
    ensures Select(t, l, c) == []
    decreases |t|
  {
    if t != [] {
      assert l[..|l| - 1] <= l;
      SelectAbsent(t[..|t| - 1], l[..|l| - 1], c);
    }
  }

  /** Count is the length of the selection. */
  lemma {:induction false} SelectLength(t: Track, l: seq<int>, c: int)
    requires |t| == |l|
    ensures |Select(t, l, c)| == Count(l, c)
    decreases |t|
  {
    if t != [] {
      SelectLength(t[..|t| - 1], l[..|l| - 1], c);
    }
  }

  /** A value absent from `l` is counted zero times. */
  lemma {:induction false} CountAbsent(l: seq<int>, c: int)
    requires c !in l
    ensures Count(l, c) == 0
    decreases |l|
  {
    if l != [] {
      assert l[..|l| - 1] <= l;
      CountAbsent(l[..|l| - 1], c);
    }
  }

  /** No event strictly between positions `j` and `i` sets a channel. */
  ghost predicate NoneSetBetween(t: Track, j: nat, i: nat)
    requires i <= |t|
  {
    forall k :: j < k < i ==> Sets(t[k]).None?
  }

  /** The context before event `i` is the channel set by the most recent event before `i`
      that sets one, and 0 when no earlier event sets one. */
  lemma {:induction false} ContextIsMostRecent(t: Track, i: nat)
    requires i <= |t|
    ensures (forall j :: 0 <= j < i ==> Sets(t[j]).None?) ==> Context(t, i) == 0
    ensures forall j :: 0 <= j < i && Sets(t[j]).Some? && NoneSetBetween(t, j, i) ==>
      Context(t, i) == Sets(t[j]).value
    decreases i
  {
    if i > 0 {
      ContextIsMostRecent(t, i - 1);
      forall j | 0 <= j < i && Sets(t[j]).Some? && NoneSetBetween(t, j, i)
        ensures Context(t, i) == Sets(t[j]).value
      {
        if j < i - 1 {
          assert Sets(t[i - 1]).None? && NoneSetBetween(t, j, i - 1);
        }
      }
    }
  }

  /** Where each event goes: a channel message to its own channel, a channel_prefix to the
      channel it declares, any other meta event to the channel of the most recent channel
      message or channel_prefix before it, or to channel 0 when there is none. */
  lemma AssignmentRule(t: Track, i: nat)
    requires i < |t|
    ensures t[i].Message? && t[i].channel.Some? ==> Label(t, i) == t[i].channel.value
    ensures t[i].MetaMessage? && t[i].kind == ChannelPrefix && t[i].data.Some? ==> Label(t, i) == t[i].data.value
    ensures t[i].MetaMessage? && t[i].kind != ChannelPrefix && (forall j :: 0 <= j < i ==> Sets(t[j]).None?) ==>
      Label(t, i) == 0
    ensures t[i].MetaMessage? && t[i].kind != ChannelPrefix ==>
      forall j :: 0 <= j < i && Sets(t[j]).Some? && NoneSetBetween(t, j, i) ==>
        Label(t, i) == Sets(t[j]).value
  {
    ContextIsMostRecent(t, i);
  }

  /** A label that occurs selects at least one event. */
  lemma {:induction false} SelectPresent(t: Track, l: seq<int>, c: int)
    requires |t| == |l| && c in l
    ensures Select(t, l, c) != []
    decreases |t|
  {
    var n := |t| - 1;
    if l[n] != c {
      assert l == l[..n] + [l[n]];
      SelectPresent(t[..n], l[..n], c);
    }
  }

  /** `a` comes before `b` in `keys` only if `a` occurs in `l` before `b` first does. */
  ghost predicate FirstUseOrder(keys: seq<int>, l: seq<int>)
  {
    forall a, b :: 0 <= a < b < |keys| ==>
      exists i :: 0 <= i < |l| && l[i] == keys[a] && keys[b] !in l[..i + 1]
  }

  /** Dedup lists values in the order of their first occurrence. */
  lemma {:induction false} DedupFirstUse(l: seq<int>)
    ensures FirstUseOrder(Dedup(l), l)
    decreases |l|
  {
    if l != [] {
      DedupFirstUse(l[..|l| - 1]);
      forall a, b | 0 <= a < b < |Dedup(l)|
        ensures exists i :: 0 <= i < |l| && l[i] == Dedup(l)[a] && Dedup(l)[b] !in l[..i + 1]
      {
        DedupFirstUsePair(l, a, b);
      }
    }
  }

  /** The step of `DedupFirstUse` for one pair of positions of the deduplicated values. */
  lemma DedupFirstUsePair(l: seq<int>, a: nat, b: nat)
    requires l != [] && FirstUseOrder(Dedup(l[..|l| - 1]), l[..|l| - 1]) && a < b < |Dedup(l)|
    ensures exists i :: 0 <= i < |l| && l[i] == Dedup(l)[a] && Dedup(l)[b] !in l[..i + 1]
  {
    var n := |l| - 1;
    var d := Dedup(l[..n]);
    if b < |d| {
      var i :| 0 <= i < n && l[..n][i] == d[a] && d[b] !in l[..n][..i + 1];
      assert l[..n][..i + 1] == l[..i + 1];
      assert l[i] == Dedup(l)[a] && Dedup(l)[b] !in l[..i + 1];
    } else {
      DedupMember(l[..n], l[n]);
      DedupMember(l[..n], d[a]);
      var i :| 0 <= i < n && l[..n][i] == d[a];
      assert l[..i + 1] <= l[..n];
      assert l[i] == Dedup(l)[a] && Dedup(l)[b] !in l[..i + 1];
    }
  }

  /** The buckets: one for exactly the channels some event is assigned to, none of them
      empty, keyed in order of first use. */
  lemma BucketsShape(t: Track)
    ensures Buckets(t).Valid()
    ensures forall c :: c in Buckets(t).entries <==> exists i :: 0 <= i < |t| && Label(t, i) == c
    ensures forall c :: c in Buckets(t).entries ==> Buckets(t).entries[c] != []
    ensures FirstUseOrder(Buckets(t).keys, Labels(t))
  {
    var l := Labels(t);
    assert t[..|t|] == t && l[..|l|] == l;
    DedupSpec(l);
    DedupFirstUse(l);
    forall c | c in Buckets(t).entries ensures Buckets(t).entries[c] != [] {
      SelectPresent(t, l, c);
    }
    forall c ensures c in Buckets(t).entries <==> exists i :: 0 <= i < |t| && Label(t, i) == c {
      if c in l {
        var i :| 0 <= i < |l| && l[i] == c;
        assert Label(t, i) == c;
      } else {
        forall i | 0 <= i < |t| ensures Label(t, i) != c {
          assert l[i] == Label(t, i);
        }
      }
    }
  }

  /** Event `i` sits in the bucket of its label, after the earlier events with that label. */
  lemma {:induction false} SelectAt(t: Track, l: seq<int>, i: nat)
    requires |t| == |l| && i < |t|
    ensures Count(l[..i], l[i]) < |Select(t, l, l[i])|
    ensures Select(t, l, l[i])[Count(l[..i], l[i])] == t[i]
    decreases |t|
  {
    var n := |t| - 1;
    SelectLength(t[..n], l[..n], l[i]);
    if i == n {
      assert l[..i] == l[..n];
    } else {
      SelectAt(t[..n], l[..n], i);
      assert l[..n][..i] == l[..i];
    }
  }

  /** Merging per-channel buckets back by the labels: event `i` is taken from the bucket of
      label `i`, at the position given by the earlier events with that label. */
  function Reassemble(l: seq<int>, buckets: map<int, Track>): (t: Track)
    requires forall i :: 0 <= i < |l| ==> l[i] in buckets && Count(l[..i], l[i]) < |buckets[l[i]]|
    ensures |t| == |l|
  {
    seq(|l|, i requires 0 <= i < |l| => buckets[l[i]][Count(l[..i], l[i])])
  }

  /** The split is an order-preserving partition: merging the buckets in the original label
      order gives the track back exactly. */
  lemma SplitReassembles(t: Track)
    ensures forall i :: 0 <= i < |t| ==>
      Labels(t)[i] in Buckets(t).entries && Count(Labels(t)[..i], Labels(t)[i]) < |Buckets(t).entries[Labels(t)[i]]|
    ensures Reassemble(Labels(t), Buckets(t).entries) == t
  {
    var l := Labels(t);
    var b := Buckets(t);
    assert t[..|t|] == t && l[..|l|] == l;
    forall i | 0 <= i < |t|
      ensures l[i] in b.entries && Count(l[..i], l[i]) < |b.entries[l[i]]| && b.entries[l[i]][Count(l[..i], l[i])] == t[i]
    {
      DedupMember(l, l[i]);
      SelectAt(t, l, i);
    }
  }

  /** The sum of the counts of `keys` in `l`. */
  function SumCounts(keys: seq<int>, l: seq<int>): nat
    decreases |keys|
  {
    if keys == [] then 0 else SumCounts(keys[..|keys| - 1], l) + Count(l, keys[|keys| - 1])
  }

  /** The total length of the buckets named by `keys`. */
  function SumLengths(keys: seq<int>, buckets: map<int, Track>): nat
    requires forall i :: 0 <= i < |keys| ==> keys[i] in buckets
    decreases |keys|
  {
    if keys == [] then 0
    else
      SumLengths(keys[..|keys| - 1], buckets) + |buckets[keys[|keys| - 1]]|
  }

  lemma {:induction false} SumCountsSnoc(keys: seq<int>, l: seq<int>, x: int)
    requires Distinct(keys)
    ensures SumCounts(keys, l + [x]) == SumCounts(keys, l) + (if x in keys then 1 else 0)
    decreases |keys|
  {
    assert (l + [x])[..|l|] == l;
    if keys != [] {
      var n := |keys| - 1;
      assert keys == keys[..n] + [keys[n]];
      SumCountsSnoc(keys[..n], l, x);
    }
  }

  lemma {:induction false} SumCountsDedup(l: seq<int>)
    ensures SumCounts(Dedup(l), l) == |l|
    decreases |l|
  {
    if l != [] {
      var n := |l| - 1;
      var d := Dedup(l[..n]);
      assert l == l[..n] + [l[n]];
      SumCountsDedup(l[..n]);
      DedupSpec(l[..n]);
      SumCountsSnoc(d, l[..n], l[n]);
      if l[n] !in d {
        DedupMember(l[..n], l[n]);
        CountAbsent(l[..n], l[n]);
        assert (d + [l[n]])[..|d|] == d;
      }
    }
  }

  lemma {:induction false} SumLengthsOfSelections(t: Track, l: seq<int>, keys: seq<int>, buckets: map<int, Track>)
    requires |t| == |l|
    requires forall i :: 0 <= i < |keys| ==> keys[i] in buckets && buckets[keys[i]] == Select(t, l, keys[i])
    ensures SumLengths(keys, buckets) == SumCounts(keys, l)
    decreases |keys|
  {
    if keys != [] {
      var n := |keys| - 1;
      assert keys[..n] <= keys;
      SumLengthsOfSelections(t, l, keys[..n], buckets);
      SelectLength(t, l, keys[n]);
    }
  }

  /** No event is lost or duplicated: the bucket lengths add up to the track length. */
  lemma BucketLengthsSum(t: Track)
    ensures forall i :: 0 <= i < |Buckets(t).keys| ==> Buckets(t).keys[i] in Buckets(t).entries
    ensures SumLengths(Buckets(t).keys, Buckets(t).entries) == |t|
  {
    var l := Labels(t);
    assert t[..|t|] == t && l[..|l|] == l;
    SumLengthsOfSelections(t, l, Dedup(l), Buckets(t).entries);
    SumCountsDedup(l);
  }

  /** A track yields buckets exactly when it has events. */
  lemma BucketsEmptyIff(t: Track)
    ensures Buckets(t).keys == [] <==> t == []
  {
    var l := Labels(t);
    assert l[..|l|] == l;
    if t != [] {
      DedupMember(l, l[0]);
    }
  }
}
