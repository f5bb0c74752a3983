/** The event model shared with the MIDI codec, and the containers the sequencer asks it to encode. */
module Midi {
  import opened Wrappers
  import opened Bytes

  /** One timed MIDI event as the decoder yields it. */
  datatype Event =
      /** A non-meta message (`is_meta` false). `channel` is None for messages that carry no
          channel, such as system-exclusive ones. */
    | Message(kind: string, channel: Option<int>, time: int)
      /** A meta message (`is_meta` true). `data` is the `.data` attribute the splitter reads
          from a `channel_prefix` event, None when the decoder gives the event no such
          attribute; other meta events ignore it. */
    | MetaMessage(kind: string, data: Option<int>, time: int)

  type Track = seq<Event>

  /** A decoded MIDI file: its format (`type`), timing base and tracks. */
  datatype MidiFile = MidiFile(format: nat, ticksPerBeat: int, tracks: seq<Track>)

  /** The codec, which the model does not see into: `encode` saves a MidiFile to bytes,
      `play` is the stream that iterating a MidiFile object yields (its tracks merged,
      with times converted). */
  datatype Codec = Codec(encode: MidiFile -> seq<byte>, play: MidiFile -> Track)

  /** The type and timing base of a MidiFile made with no arguments (the codec's defaults). */
  const DefaultFormat: nat := 1
  const DefaultTicksPerBeat := 480

  /** The container a per-channel file is saved from: a default MidiFile holding one track. */
  function ChannelFile(bucket: Track): MidiFile
  {
    MidiFile(DefaultFormat, DefaultTicksPerBeat, [bucket])
  }

  /** The container a per-track file is saved from: type 0, the source's timing base, one track. */
  function TrackFile(ticksPerBeat: int, track: Track): MidiFile
  {
    MidiFile(0, ticksPerBeat, [track])
  }
}
