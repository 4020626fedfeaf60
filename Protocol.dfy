/**
 * The messages of the plugin channel. Every message starts with a `writeUTF`
 * tag naming its subchannel; the fields follow in a fixed order.
 *
 *   server to client: RequestMods, StartVote, VoteStats, VoteEnd, Pong
 *   client to server: ModList, VoteResponse
 *
 * For each incoming message this module gives the decoding the client performs
 * (`ReadStartVote`, ...) and the encoding the server must produce for it
 * (`StartVoteBody`, ...), and proves the two inverse; for each outgoing message
 * it gives the bytes the client writes and the reading that recovers them.
 */
module Protocol {
  import opened Wire

  /** The bytes of an ASCII literal; ASCII is its own modified UTF-8. */
  function Ascii(text: string): (r: Str)
    requires forall i :: 0 <= i < |text| ==> text[i] as int < 0x80
    ensures |r| == |text|
    ensures forall i :: 0 <= i < |text| ==> r[i] as int == text[i] as int
  {
    seq(|text|, i requires 0 <= i < |text| => text[i] as int as byte)
  }

  const REQUEST_MODS: Str := Ascii("RequestMods")
  const START_VOTE: Str := Ascii("StartVote")
  const VOTE_STATS: Str := Ascii("VoteStats")
  const VOTE_END: Str := Ascii("VoteEnd")
  const PONG: Str := Ascii("Pong")
  const MOD_LIST: Str := Ascii("ModList")
  const VOTE_RESPONSE: Str := Ascii("VoteResponse")

  /** The largest option or count list the client accepts. */
  const MAX_ENTRIES: int := 10_000

  predicate InRange(n: int32) {
    0 <= n as int <= MAX_ENTRIES
  }

  // -------------------------------------------------------------------------
  // Dispatch on the leading tag
  // -------------------------------------------------------------------------

  datatype Subchannel = RequestMods | StartVote | VoteStats | VoteEnd | Pong | Unknown

  const KNOWN_TAGS: set<Str> := {REQUEST_MODS, START_VOTE, VOTE_STATS, VOTE_END, PONG}

  /** The receiver's `switch` on the tag; only the listed tags have a handler. */
  function Route(tag: Str): (r: Subchannel)
    ensures r == Unknown <==> tag !in KNOWN_TAGS
  {
    if tag == REQUEST_MODS then RequestMods
    else if tag == START_VOTE then StartVote
    else if tag == VOTE_STATS then VoteStats
    else if tag == VOTE_END then VoteEnd
    else if tag == PONG then Pong
    else Unknown
  }

  lemma TagsDistinct()
    ensures REQUEST_MODS != START_VOTE && REQUEST_MODS != VOTE_STATS && REQUEST_MODS != VOTE_END
    ensures REQUEST_MODS != PONG && START_VOTE != VOTE_STATS && START_VOTE != VOTE_END
    ensures START_VOTE != PONG && VOTE_STATS != VOTE_END && VOTE_STATS != PONG && VOTE_END != PONG
  {
    assert START_VOTE[0] != VOTE_STATS[0];
  }

  /** Each of the five tags routes to its own handler and to no other; every other tag is unknown. */
  lemma RouteExact(tag: Str)
    ensures Route(tag) == RequestMods <==> tag == REQUEST_MODS
    ensures Route(tag) == StartVote <==> tag == START_VOTE
    ensures Route(tag) == VoteStats <==> tag == VOTE_STATS
    ensures Route(tag) == VoteEnd <==> tag == VOTE_END
    ensures Route(tag) == Pong <==> tag == PONG
    ensures Route(tag) == Unknown <==>
      tag != REQUEST_MODS && tag != START_VOTE && tag != VOTE_STATS && tag != VOTE_END && tag != PONG
  {
    TagsDistinct();
  }

  // -------------------------------------------------------------------------
  // StartVote: voteId, title, desc, count, options[count], allowMove, hasImage, image?, duration
  // -------------------------------------------------------------------------

  datatype StartVoteFields = StartVoteFields(
    voteId: Str, title: Str, description: Str, options: seq<Str>,
    allowMove: bool, imageData: Option<Str>, durationSec: int32)

  /** The fields before the options: voteId, title, desc and the option count. */
  datatype Heading = Heading(voteId: Str, title: Str, description: Str, count: int32)

  /** The fields after the options: allowMove, the image (present when hasImage) and the duration. */
  datatype Closing = Closing(allowMove: bool, imageData: Option<Str>, durationSec: int32)

  /** Three strings and an int: every heading read takes at least 10 bytes. */
  function ReadHeading(s: seq<byte>): (r: Option<Parsed<Heading>>)
    ensures r.Some? ==> HeadingEncodable(r.value.value) && |r.value.rest| + 10 <= |s|
  {
    var voteId :- ReadUtf(s);
    var title :- ReadUtf(voteId.rest);
    var desc :- ReadUtf(title.rest);
    var count :- ReadInt32(desc.rest);
    Some(Parsed(Heading(voteId.value, title.value, desc.value, count.value), count.rest))
  }

  /** The image field: a `readUTF` only when `hasImage` was true. */
  function ReadImage(s: seq<byte>, hasImage: bool): (r: Option<Parsed<Option<Str>>>)
    ensures r.Some? ==> r.value.value.Some? == hasImage
  {
    if !hasImage then Some(Parsed(None, s))
    else
      var image :- ReadUtf(s);
      Some(Parsed(Some(image.value), image.rest))
  }

  /** Two booleans, the image when present, and an int: at least 6 bytes. */
  function ReadClosing(s: seq<byte>): (r: Option<Parsed<Closing>>)
    ensures r.Some? ==> ClosingEncodable(r.value.value) && |r.value.rest| + 6 <= |s|
  {
    var allowMove :- ReadBool(s);
    var hasImage :- ReadBool(allowMove.rest);
    var image :- ReadImage(hasImage.rest, hasImage.value);
    var duration :- ReadInt32(image.rest);
    Some(Parsed(Closing(allowMove.value, image.value, duration.value), duration.rest))
  }

  /** `handleStartVote`'s reads; None when a read throws or the option count is out of range. */
  function ReadStartVote(s: seq<byte>): (r: Option<Parsed<StartVoteFields>>)
    ensures r.Some? ==> |r.value.value.options| <= MAX_ENTRIES
  {
    var h :- ReadHeading(s);
    if !InRange(h.value.count) then None
    else
      var options :- ReadUtfList(h.rest, h.value.count as nat);
      var c :- ReadClosing(options.rest);
      Some(Parsed(StartVoteFields(h.value.voteId, h.value.title, h.value.description, options.value,
                                  c.value.allowMove, c.value.imageData, c.value.durationSec),
                  c.rest))
  }

  predicate HeadingEncodable(h: Heading) {
    Fits(h.voteId) && Fits(h.title) && Fits(h.description)
  }

  predicate ClosingEncodable(c: Closing) {
    c.imageData.Some? ==> Fits(c.imageData.value)
  }

  function HeadingBytes(h: Heading): seq<byte>
    requires HeadingEncodable(h)
  {
    Utf(h.voteId) + (Utf(h.title) + (Utf(h.description) + Int32BE(h.count)))
  }

  function ImageBytes(image: Option<Str>): seq<byte>
    requires image.Some? ==> Fits(image.value)
  {
    if image.Some? then BoolByte(true) + Utf(image.value) else BoolByte(false)
  }

  function ClosingBytes(c: Closing): seq<byte>
    requires ClosingEncodable(c)
  {
    BoolByte(c.allowMove) + (ImageBytes(c.imageData) + Int32BE(c.durationSec))
  }

  function HeadingOf(f: StartVoteFields): Heading
    requires |f.options| <= MAX_ENTRIES
  {
    Heading(f.voteId, f.title, f.description, |f.options| as int32)
  }

  function ClosingOf(f: StartVoteFields): Closing {
    Closing(f.allowMove, f.imageData, f.durationSec)
  }

  predicate StartVoteEncodable(f: StartVoteFields) {
    |f.options| <= MAX_ENTRIES && HeadingEncodable(HeadingOf(f)) && AllFit(f.options)
    && ClosingEncodable(ClosingOf(f))
  }

  /** The fields of a StartVote, written in the order the client reads them. */
  function StartVoteBody(f: StartVoteFields): seq<byte>
    requires StartVoteEncodable(f)
  {
    HeadingBytes(HeadingOf(f)) + (UtfList(f.options) + ClosingBytes(ClosingOf(f)))
  }

  lemma {:induction false} HeadingRoundTrip(h: Heading, rest: seq<byte>)
    requires HeadingEncodable(h)
    ensures ReadHeading(HeadingBytes(h) + rest) == Some(Parsed(h, rest))
  {
    var a, b, c, d := Utf(h.voteId), Utf(h.title), Utf(h.description), Int32BE(h.count);
    AppendAssoc(a, b + (c + d), rest);
    AppendAssoc(b, c + d, rest);
    AppendAssoc(c, d, rest);
    UtfRoundTrip(h.voteId, b + (c + (d + rest)));
    UtfRoundTrip(h.title, c + (d + rest));
    UtfRoundTrip(h.description, d + rest);
    Int32RoundTrip(h.count, rest);
  }

  /** Whatever the heading decoding accepts is the encoding of what it returns. */
  lemma {:induction false} HeadingConsumed(s: seq<byte>)
    requires ReadHeading(s).Some?
    ensures var r := ReadHeading(s).value;
      HeadingEncodable(r.value) && s == HeadingBytes(r.value) + r.rest
  {
    var voteId := ReadUtf(s).value;
    var title := ReadUtf(voteId.rest).value;
    var desc := ReadUtf(title.rest).value;
    var count := ReadInt32(desc.rest).value;
    UtfConsumed(s);
    UtfConsumed(voteId.rest);
    UtfConsumed(title.rest);
    Int32Consumed(desc.rest);
    var a, b, c, d := Utf(voteId.value), Utf(title.value), Utf(desc.value), Int32BE(count.value);
    AppendAssoc(c, d, count.rest);
    AppendAssoc(b, c + d, count.rest);
    AppendAssoc(a, b + (c + d), count.rest);
  }

  lemma {:induction false} ClosingRoundTrip(c: Closing, rest: seq<byte>)
    requires ClosingEncodable(c)
    ensures ReadClosing(ClosingBytes(c) + rest) == Some(Parsed(c, rest))
  {
    var a, b, d := BoolByte(c.allowMove), ImageBytes(c.imageData), Int32BE(c.durationSec);
    AppendAssoc(a, b + d, rest);
    AppendAssoc(b, d, rest);
    BoolRoundTrip(c.allowMove, b + (d + rest));
    if c.imageData.Some? {
      AppendAssoc(BoolByte(true), Utf(c.imageData.value), d + rest);
      BoolRoundTrip(true, Utf(c.imageData.value) + (d + rest));
      UtfRoundTrip(c.imageData.value, d + rest);
    } else {
      BoolRoundTrip(false, d + rest);
    }
    Int32RoundTrip(c.durationSec, rest);
  }

  /** Decoding what the server encodes yields the same fields and leaves exactly what follows. */
  lemma {:induction false} StartVoteRoundTrip(f: StartVoteFields, rest: seq<byte>)
    requires StartVoteEncodable(f)
    ensures ReadStartVote(StartVoteBody(f) + rest) == Some(Parsed(f, rest))
  {
    var a, b, c := HeadingBytes(HeadingOf(f)), UtfList(f.options), ClosingBytes(ClosingOf(f));
    AppendAssoc(a, b + c, rest);
    AppendAssoc(b, c, rest);
    HeadingRoundTrip(HeadingOf(f), b + (c + rest));
    UtfListRoundTrip(f.options, c + rest);
    ClosingRoundTrip(ClosingOf(f), rest);
  }

  lemma {:induction false} HeadingExtend(s: seq<byte>, t: seq<byte>)
    requires ReadHeading(s).Some?
    ensures ReadHeading(s + t) == Some(Parsed(ReadHeading(s).value.value, ReadHeading(s).value.rest + t))
  {
    var voteId := ReadUtf(s).value;
    var title := ReadUtf(voteId.rest).value;
    var desc := ReadUtf(title.rest).value;
    UtfExtend(s, t);
    UtfExtend(voteId.rest, t);
    UtfExtend(title.rest, t);
    Int32Extend(desc.rest, t);
  }

  lemma {:induction false} ClosingExtend(s: seq<byte>, t: seq<byte>)
    requires ReadClosing(s).Some?
    ensures ReadClosing(s + t) == Some(Parsed(ReadClosing(s).value.value, ReadClosing(s).value.rest + t))
  {
    var allowMove := ReadBool(s).value;
    var hasImage := ReadBool(allowMove.rest).value;
    var image := ReadImage(hasImage.rest, hasImage.value).value;
    BoolExtend(s, t);
    BoolExtend(allowMove.rest, t);
    if hasImage.value {
      UtfExtend(hasImage.rest, t);
    }
    Int32Extend(image.rest, t);
  }

  /** What a StartVote decodes to depends only on the bytes it consumes. */
  lemma {:induction false} StartVoteExtend(s: seq<byte>, t: seq<byte>)
    requires ReadStartVote(s).Some?
    ensures ReadStartVote(s + t) == Some(Parsed(ReadStartVote(s).value.value, ReadStartVote(s).value.rest + t))
  {
    var h := ReadHeading(s).value;
    var options := ReadUtfList(h.rest, h.value.count as nat).value;
    HeadingExtend(s, t);
    UtfListExtend(h.rest, t, h.value.count as nat);
    ClosingExtend(options.rest, t);
  }

  /** When a StartVote takes up all of `s`, no proper prefix of `s` decodes. */
  lemma NoDecodablePrefix(s: seq<byte>, k: nat)
    requires ReadStartVote(s).Some? && ReadStartVote(s).value.rest == [] && k < |s|
    ensures ReadStartVote(s[..k]).None?
  {
    var cut, tail := s[..k], s[k..];
    SplitAt(s, k);
    if ReadStartVote(cut).Some? {
      StartVoteExtend(cut, tail);
    }
  }

  /** A StartVote cut short anywhere is dropped. */
  lemma StartVoteTruncated(f: StartVoteFields, k: nat)
    requires StartVoteEncodable(f) && k < |StartVoteBody(f)|
    ensures ReadStartVote(StartVoteBody(f)[..k]).None?
  {
    StartVoteRoundTrip(f, []);
    assert StartVoteBody(f) + [] == StartVoteBody(f);
    NoDecodablePrefix(StartVoteBody(f), k);
  }

  /** An option count below 0 or above 10000 drops the StartVote whatever follows it. */
  lemma StartVoteCountRejected(h: Heading, rest: seq<byte>)
    requires HeadingEncodable(h) && !InRange(h.count)
    ensures ReadStartVote(HeadingBytes(h) + rest).None?
  {
    HeadingRoundTrip(h, rest);
  }

  // -------------------------------------------------------------------------
  // VoteStats: voteId, n, counts[n]
  // -------------------------------------------------------------------------

  datatype VoteStatsFields = VoteStatsFields(voteId: Str, counts: seq<int32>)

  /** `handleVoteStats`'s reads; None when a read throws or n is out of range. */
  function ReadVoteStats(s: seq<byte>): (r: Option<Parsed<VoteStatsFields>>)
    ensures r.Some? ==> |r.value.value.counts| <= MAX_ENTRIES
  {
    var voteId :- ReadUtf(s);
    var n :- ReadInt32(voteId.rest);
    if !InRange(n.value) then None
    else
      var counts :- ReadInt32List(n.rest, n.value as nat);
      Some(Parsed(VoteStatsFields(voteId.value, counts.value), counts.rest))
  }

  predicate VoteStatsEncodable(f: VoteStatsFields) {
    Fits(f.voteId) && |f.counts| <= MAX_ENTRIES
  }

  function VoteStatsBody(f: VoteStatsFields): seq<byte>
    requires VoteStatsEncodable(f)
  {
    Utf(f.voteId) + (Int32BE(|f.counts| as int32) + Int32List(f.counts))
  }

  lemma {:induction false} VoteStatsRoundTrip(f: VoteStatsFields, rest: seq<byte>)
    requires VoteStatsEncodable(f)
    ensures ReadVoteStats(VoteStatsBody(f) + rest) == Some(Parsed(f, rest))
  {
    var a, b, c := Utf(f.voteId), Int32BE(|f.counts| as int32), Int32List(f.counts);
    AppendAssoc(a, b + c, rest);
    AppendAssoc(b, c, rest);
    UtfRoundTrip(f.voteId, b + (c + rest));
    Int32RoundTrip(|f.counts| as int32, c + rest);
    Int32ListRoundTrip(f.counts, rest);
  }

  /** A VoteStats is accepted only when its bytes are exactly the encoding of what it returns. */
  lemma {:induction false} VoteStatsConsumed(s: seq<byte>)
    requires ReadVoteStats(s).Some?
    ensures var r := ReadVoteStats(s).value;
      VoteStatsEncodable(r.value) && s == VoteStatsBody(r.value) + r.rest
  {
    var r := ReadVoteStats(s).value;
    var voteId := ReadUtf(s).value;
    var n := ReadInt32(voteId.rest).value;
    UtfConsumed(s);
    Int32Consumed(voteId.rest);
    Int32ListConsumed(n.rest, n.value as nat);
    assert |r.value.counts| as int32 == n.value;
    var a, b, c := Utf(voteId.value), Int32BE(n.value), Int32List(r.value.counts);
    AppendAssoc(b, c, r.rest);
    AppendAssoc(a, b + c, r.rest);
  }

  /** A count below 0 or above 10000 drops the VoteStats whatever follows it. */
  lemma VoteStatsCountRejected(voteId: Str, n: int32, rest: seq<byte>)
    requires Fits(voteId) && !InRange(n)
    ensures ReadVoteStats(Utf(voteId) + (Int32BE(n) + rest)).None?
  {
    UtfRoundTrip(voteId, Int32BE(n) + rest);
    Int32RoundTrip(n, rest);
  }

  // -------------------------------------------------------------------------
  // VoteEnd: voteId, reason, n, counts[n]; an out-of-range n reads as 0
  // -------------------------------------------------------------------------

  datatype VoteEndFields = VoteEndFields(voteId: Str, reason: Str, counts: seq<int32>)

  /** `handleVoteEnd`'s reads; None only when a read throws. */
  function ReadVoteEnd(s: seq<byte>): (r: Option<Parsed<VoteEndFields>>)
    ensures r.Some? ==> |r.value.value.counts| <= MAX_ENTRIES
  {
    var voteId :- ReadUtf(s);
    var reason :- ReadUtf(voteId.rest);
    var n :- ReadInt32(reason.rest);
    var m := if InRange(n.value) then n.value as nat else 0;
    var counts :- ReadInt32List(n.rest, m);
    Some(Parsed(VoteEndFields(voteId.value, reason.value, counts.value), counts.rest))
  }

  predicate VoteEndEncodable(f: VoteEndFields) {
    Fits(f.voteId) && Fits(f.reason) && |f.counts| <= MAX_ENTRIES
  }

  /** voteId, reason and the count field, whatever count follows. */
  function VoteEndHeader(voteId: Str, reason: Str, n: int32): seq<byte>
    requires Fits(voteId) && Fits(reason)
  {
    Utf(voteId) + (Utf(reason) + Int32BE(n))
  }

  function VoteEndBody(f: VoteEndFields): seq<byte>
    requires VoteEndEncodable(f)
  {
    VoteEndHeader(f.voteId, f.reason, |f.counts| as int32) + Int32List(f.counts)
  }

  lemma {:induction false} VoteEndHeaderRead(voteId: Str, reason: Str, n: int32, rest: seq<byte>)
    requires Fits(voteId) && Fits(reason)
    ensures var s := VoteEndHeader(voteId, reason, n) + rest;
      && ReadUtf(s) == Some(Parsed(voteId, Utf(reason) + (Int32BE(n) + rest)))
      && ReadUtf(Utf(reason) + (Int32BE(n) + rest)) == Some(Parsed(reason, Int32BE(n) + rest))
      && ReadInt32(Int32BE(n) + rest) == Some(Parsed(n, rest))
  {
    var a, b, c := Utf(voteId), Utf(reason), Int32BE(n);
    AppendAssoc(a, b + c, rest);
    AppendAssoc(b, c, rest);
    UtfRoundTrip(voteId, b + (c + rest));
    UtfRoundTrip(reason, c + rest);
    Int32RoundTrip(n, rest);
  }

  lemma {:induction false} VoteEndRoundTrip(f: VoteEndFields, rest: seq<byte>)
    requires VoteEndEncodable(f)
    ensures ReadVoteEnd(VoteEndBody(f) + rest) == Some(Parsed(f, rest))
  {
    var h, c := VoteEndHeader(f.voteId, f.reason, |f.counts| as int32), Int32List(f.counts);
    AppendAssoc(h, c, rest);
    VoteEndHeaderRead(f.voteId, f.reason, |f.counts| as int32, c + rest);
    Int32ListRoundTrip(f.counts, rest);
  }

  /** Unlike VoteStats, an out-of-range count is read as an empty count list, not rejected. */
  lemma {:induction false} VoteEndCountClamped(voteId: Str, reason: Str, n: int32, rest: seq<byte>)
    requires Fits(voteId) && Fits(reason) && !InRange(n)
    ensures ReadVoteEnd(VoteEndHeader(voteId, reason, n) + rest)
         == Some(Parsed(VoteEndFields(voteId, reason, []), rest))
  {
    VoteEndHeaderRead(voteId, reason, n, rest);
  }

  /** A decoded VoteEnd is either exactly the encoding of its fields or a header whose count was out of range. */
  lemma {:induction false} VoteEndConsumed(s: seq<byte>)
    requires ReadVoteEnd(s).Some?
    ensures var r := ReadVoteEnd(s).value;
      var f := r.value;
      VoteEndEncodable(f)
      && (s == VoteEndBody(f) + r.rest
          || (f.counts == []
              && exists n: int32 :: !InRange(n) && s == VoteEndHeader(f.voteId, f.reason, n) + r.rest))
  {
    var r := ReadVoteEnd(s).value;
    var f := r.value;
    var voteId := ReadUtf(s).value;
    var reason := ReadUtf(voteId.rest).value;
    var n := ReadInt32(reason.rest).value;
    UtfConsumed(s);
    UtfConsumed(voteId.rest);
    Int32Consumed(reason.rest);
    var a, b, c := Utf(voteId.value), Utf(reason.value), Int32BE(n.value);
    AppendAssoc(b, c, n.rest);
    AppendAssoc(a, b + c, n.rest);
    assert s == VoteEndHeader(f.voteId, f.reason, n.value) + n.rest;
    if InRange(n.value) {
      Int32ListConsumed(n.rest, n.value as nat);
      assert |f.counts| as int32 == n.value;
      AppendAssoc(VoteEndHeader(f.voteId, f.reason, n.value), Int32List(f.counts), r.rest);
    } else {
      assert n.rest == r.rest;
    }
  }

  // -------------------------------------------------------------------------
  // A whole incoming payload, as the receiver and its handlers read it
  // -------------------------------------------------------------------------

  datatype Incoming =
    | Unreadable
    | RequestModsMsg
    | StartVoteMsg(start: Option<StartVoteFields>)
    | VoteStatsMsg(stats: Option<VoteStatsFields>)
    | VoteEndMsg(end: Option<VoteEndFields>)
    | PongMsg
    | UnknownMsg(tag: Str)

  /** The tag chooses the handler; a handler reads its fields from just after the tag. */
  function Decode(payload: seq<byte>): (m: Incoming)
    ensures m.Unreadable? <==> ValueOf(ReadUtf(payload)).None?
    ensures m.RequestModsMsg? <==> ValueOf(ReadUtf(payload)) == Some(REQUEST_MODS)
    ensures m.StartVoteMsg? <==> ValueOf(ReadUtf(payload)) == Some(START_VOTE)
    ensures m.VoteStatsMsg? <==> ValueOf(ReadUtf(payload)) == Some(VOTE_STATS)
    ensures m.VoteEndMsg? <==> ValueOf(ReadUtf(payload)) == Some(VOTE_END)
    ensures m.PongMsg? <==> ValueOf(ReadUtf(payload)) == Some(PONG)
    ensures m.UnknownMsg? <==> ReadUtf(payload).Some? && ReadUtf(payload).value.value !in KNOWN_TAGS
    ensures m.UnknownMsg? ==> ValueOf(ReadUtf(payload)) == Some(m.tag)
  {
    match ReadUtf(payload)
    case None => Unreadable
    case Some(tag) => Dispatched(tag.value, tag.rest)
  }

  /** What the handler that `tag` routes to reads from `body`. */
  function Dispatched(tag: Str, body: seq<byte>): (m: Incoming)
    ensures !m.Unreadable?
    ensures m.RequestModsMsg? <==> tag == REQUEST_MODS
    ensures m.StartVoteMsg? <==> tag == START_VOTE
    ensures m.VoteStatsMsg? <==> tag == VOTE_STATS
    ensures m.VoteEndMsg? <==> tag == VOTE_END
    ensures m.PongMsg? <==> tag == PONG
    ensures m.UnknownMsg? <==> tag !in KNOWN_TAGS
    ensures m.UnknownMsg? ==> m.tag == tag
  {
    RouteExact(tag);
    match Route(tag)
    case RequestMods => RequestModsMsg
    case StartVote => StartVoteMsg(ValueOf(ReadStartVote(body)))
    case VoteStats => VoteStatsMsg(ValueOf(ReadVoteStats(body)))
    case VoteEnd => VoteEndMsg(ValueOf(ReadVoteEnd(body)))
    case Pong => PongMsg
    case Unknown => UnknownMsg(tag)
  }

  /** The payload is dropped before any handler exactly when its tag is cut short. */
  lemma UnreadableExactly(payload: seq<byte>)
    ensures Decode(payload) == Unreadable <==>
      |payload| < 2 || |payload| < 2 + payload[0] as int * 0x100 + payload[1] as int
  {
  }

  lemma {:induction false} DecodeStartVote(f: StartVoteFields, rest: seq<byte>)
    requires StartVoteEncodable(f)
    ensures Decode(Utf(START_VOTE) + (StartVoteBody(f) + rest)) == StartVoteMsg(Some(f))
  {
    UtfRoundTrip(START_VOTE, StartVoteBody(f) + rest);
    StartVoteRoundTrip(f, rest);
    RouteExact(START_VOTE);
  }

  lemma {:induction false} DecodeVoteStats(f: VoteStatsFields, rest: seq<byte>)
    requires VoteStatsEncodable(f)
    ensures Decode(Utf(VOTE_STATS) + (VoteStatsBody(f) + rest)) == VoteStatsMsg(Some(f))
  {
    UtfRoundTrip(VOTE_STATS, VoteStatsBody(f) + rest);
    VoteStatsRoundTrip(f, rest);
    RouteExact(VOTE_STATS);
  }

  lemma {:induction false} DecodeVoteEnd(f: VoteEndFields, rest: seq<byte>)
    requires VoteEndEncodable(f)
    ensures Decode(Utf(VOTE_END) + (VoteEndBody(f) + rest)) == VoteEndMsg(Some(f))
  {
    UtfRoundTrip(VOTE_END, VoteEndBody(f) + rest);
    VoteEndRoundTrip(f, rest);
    RouteExact(VOTE_END);
  }

  // -------------------------------------------------------------------------
  // Outgoing: VoteResponse and ModList
  // -------------------------------------------------------------------------

  /** `sendVoteResponse`'s bytes; None when `writeUTF` throws on the vote id. */
  function VoteResponseMessage(voteId: Str, optionIndex: int32): (r: Option<seq<byte>>)
    ensures r.Some? <==> Fits(voteId)
    ensures r.Some? ==> |r.value| == 2 + |VOTE_RESPONSE| + 2 + |voteId| + 4
                        && r.value[..2 + |VOTE_RESPONSE|] == Utf(VOTE_RESPONSE)
  {
    if Fits(voteId) then Some(Utf(VOTE_RESPONSE) + (Utf(voteId) + Int32BE(optionIndex))) else None
  }

  /** The reading of a VoteResponse on the receiving side. */
  function ReadVoteResponse(b: seq<byte>): Option<(Str, int32)> {
    var tag :- ReadUtf(b);
    if tag.value != VOTE_RESPONSE then None
    else
      var voteId :- ReadUtf(tag.rest);
      var index :- ReadInt32(voteId.rest);
      Some((voteId.value, index.value))
  }

  lemma {:induction false} VoteResponseRoundTrip(voteId: Str, optionIndex: int32)
    requires Fits(voteId)
    ensures VoteResponseMessage(voteId, optionIndex).Some?
    ensures ReadVoteResponse(VoteResponseMessage(voteId, optionIndex).value) == Some((voteId, optionIndex))
  {
    var a, b, c := Utf(VOTE_RESPONSE), Utf(voteId), Int32BE(optionIndex);
    assert c == c + [];
    UtfRoundTrip(VOTE_RESPONSE, b + c);
    UtfRoundTrip(voteId, c);
    Int32RoundTrip(optionIndex, []);
  }

  /** `sendModList`'s bytes; None when `writeUTF` throws on some id or pack name. */
  function ModListMessage(modIds: seq<Str>, packs: seq<Str>): (r: Option<seq<byte>>)
    requires |modIds| < 0x8000_0000 && |packs| < 0x8000_0000
    ensures r.Some? <==> AllFit(modIds) && AllFit(packs)
    ensures r.Some? ==> |r.value| >= 2 + |MOD_LIST| + 8 + 2 * (|modIds| + |packs|)
                        && r.value[..2 + |MOD_LIST|] == Utf(MOD_LIST)
  {
    if AllFit(modIds) && AllFit(packs) then
      Some(Utf(MOD_LIST) + (Int32BE(|modIds| as int32) + (UtfList(modIds)
           + (Int32BE(|packs| as int32) + UtfList(packs)))))
    else None
  }

  /** The reading of a ModList on the receiving side: a count, then that many strings, twice. */
  function ReadModList(b: seq<byte>): Option<(seq<Str>, seq<Str>)> {
    var tag :- ReadUtf(b);
    if tag.value != MOD_LIST then None
    else
      var n :- ReadInt32(tag.rest);
      if n.value < 0 then None
      else
        var ids :- ReadUtfList(n.rest, n.value as nat);
        var m :- ReadInt32(ids.rest);
        if m.value < 0 then None
        else
          var packs :- ReadUtfList(m.rest, m.value as nat);
          Some((ids.value, packs.value))
  }

  /** The ModList is sent exactly when every string fits, and reading it recovers both lists in order. */
  lemma {:induction false} ModListRoundTrip(modIds: seq<Str>, packs: seq<Str>)
    requires |modIds| < 0x8000_0000 && |packs| < 0x8000_0000
    ensures ModListMessage(modIds, packs).Some? <==> AllFit(modIds) && AllFit(packs)
    ensures ModListMessage(modIds, packs).Some? ==>
      ReadModList(ModListMessage(modIds, packs).value) == Some((modIds, packs))
  {
    if AllFit(modIds) && AllFit(packs) {
      var a, b, c := Utf(MOD_LIST), Int32BE(|modIds| as int32), UtfList(modIds);
      var d, e := Int32BE(|packs| as int32), UtfList(packs);
      assert e == e + [];
      UtfRoundTrip(MOD_LIST, b + (c + (d + e)));
      Int32RoundTrip(|modIds| as int32, c + (d + e));
      UtfListRoundTrip(modIds, d + e);
      Int32RoundTrip(|packs| as int32, e);
      UtfListRoundTrip(packs, []);
    }
  }

  /** The encoding part of `sendVoteResponse`, on a fresh `ByteArrayDataOutput`. */
  method WriteVoteResponse(voteId: Str, optionIndex: int32) returns (payload: Option<seq<byte>>)
    ensures payload == VoteResponseMessage(voteId, optionIndex)
  {
    var out := new Writer();
    var ok := out.WriteUTF(VOTE_RESPONSE);
    assert out.bytes == Utf(VOTE_RESPONSE);
    ok := out.WriteUTF(voteId);
    if !ok {
      return None;
    }
    out.WriteInt(optionIndex);
    AppendAssoc(Utf(VOTE_RESPONSE), Utf(voteId), Int32BE(optionIndex));
    payload := Some(out.bytes);
  }

  /** One `writeUTF` per string, in order; false when one of them throws, which abandons the payload. */
  method WriteAll(out: Writer, xs: seq<Str>) returns (ok: bool)
    modifies out
    ensures ok == AllFit(xs)
    ensures ok ==> out.bytes == old(out.bytes) + UtfList(xs)
  {
    ghost var head := out.bytes;
    for i := 0 to |xs|
      invariant AllFit(xs[..i])
      invariant out.bytes == head + UtfList(xs[..i])
    {
      ok := out.WriteUTF(xs[i]);
      if !ok {
        assert !AllFit(xs);
        return;
      }
      UtfListAppend(xs, i);
      AppendAssoc(head, UtfList(xs[..i]), Utf(xs[i]));
    }
    assert xs[..|xs|] == xs;
    ok := true;
  }

  /** The encoding part of `sendModList`: the tag, then each list as a count and its strings. */
  method WriteModList(modIds: seq<Str>, packs: seq<Str>) returns (payload: Option<seq<byte>>)
    requires |modIds| < 0x8000_0000 && |packs| < 0x8000_0000
    ensures payload == ModListMessage(modIds, packs)
  {
    var out := new Writer();
    var ok := out.WriteUTF(MOD_LIST);
    assert out.bytes == Utf(MOD_LIST);
    out.WriteInt(|modIds| as int32);
    ok := WriteAll(out, modIds);
    if !ok {
      return None;
    }
    out.WriteInt(|packs| as int32);
    ok := WriteAll(out, packs);
    if !ok {
      return None;
    }
    ghost var a, b, c := Utf(MOD_LIST), Int32BE(|modIds| as int32), UtfList(modIds);
    ghost var d, e := Int32BE(|packs| as int32), UtfList(packs);
    AppendAssoc(a + b + c, d, e);
    AppendAssoc(a + b, c, d + e);
    AppendAssoc(a, b, c + (d + e));
    payload := Some(out.bytes);
  }
}
