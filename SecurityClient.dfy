// The mod's receiver and its three handlers: a payload is read through a
// cursor, the tag picks the handler, and each handler reads its fields and
// then acts on the vote screens, the registry and the movement freeze.

module SecurityClient {
  import opened Wire
  import opened Protocol
  import opened VoteScreens

  /** What the game supplies: the lists a ModList reports, the window a new vote screen is
      laid out in, and what its image string turns out to be. */
  datatype Host = Host(modIds: seq<Str>, packNames: seq<Str>, width: int32, height: int32, image: ImageCheck)

  /** Java lists hold at most 2^31 - 1 elements. */
  predicate HostValid(host: Host) {
    |host.modIds| < 0x8000_0000 && |host.packNames| < 0x8000_0000
  }

  // -------------------------------------------------------------------------
  // The reading loops
  // -------------------------------------------------------------------------

  /** `for (i < n) options.add(in.readUTF())`. */
  method ReadStrings(cursor: Reader, n: nat) returns (r: Option<seq<Str>>)
    requires cursor.Valid()
    modifies cursor
    ensures cursor.Valid()
    ensures r == ValueOf(ReadUtfList(old(cursor.Unread()), n))
    ensures r.Some? ==> cursor.Unread() == ReadUtfList(old(cursor.Unread()), n).value.rest
  {
    ghost var s0 := cursor.Unread();
    var items: seq<Str> := [];
    for i := 0 to n
      invariant cursor.Valid()
      invariant ReadUtfList(s0, i) == Some(Parsed(items, cursor.Unread()))
    {
      UtfListStep(s0, i, items, cursor.Unread());
      var x := cursor.ReadUTF();
      if x.None? {
        UtfListFailureStays(s0, i + 1, n);
        return None;
      }
      items := items + [x.value];
    }
    return Some(items);
  }

  /** `int[] counts = new int[n]; for (i < n) counts[i] = in.readInt()`. */
  method ReadCounts(cursor: Reader, n: nat) returns (r: Option<seq<int32>>)
    requires cursor.Valid()
    modifies cursor
    ensures cursor.Valid()
    ensures r == ValueOf(ReadInt32List(old(cursor.Unread()), n))
    ensures r.Some? ==> cursor.Unread() == ReadInt32List(old(cursor.Unread()), n).value.rest
  {
    ghost var s0 := cursor.Unread();
    var counts := new int32[n];
    for i := 0 to n
      invariant cursor.Valid()
      invariant ReadInt32List(s0, i) == Some(Parsed(counts[..i], cursor.Unread()))
    {
      Int32ListStep(s0, i, counts[..i], cursor.Unread());
      var x := cursor.ReadInt();
      if x.None? {
        Int32ListFailureStays(s0, i + 1, n);
        return None;
      }
      counts[i] := x.value;
      assert counts[..i + 1] == counts[..i] + [x.value];
    }
    assert counts[..] == counts[..n];
    return Some(counts[..]);
  }

  // -------------------------------------------------------------------------
  // Each decoder, once its first reads have succeeded, as the rest of its reads
  // -------------------------------------------------------------------------

  lemma HeadingFrom(s0: seq<byte>, s1: seq<byte>, s2: seq<byte>, s3: seq<byte>, voteId: Str, title: Str, desc: Str)
    requires ReadUtf(s0) == Some(Parsed(voteId, s1)) && ReadUtf(s1) == Some(Parsed(title, s2))
    requires ReadUtf(s2) == Some(Parsed(desc, s3))
    ensures ReadHeading(s0) == match ReadInt32(s3)
      case None => None
      case Some(n) => Some(Parsed(Heading(voteId, title, desc, n.value), n.rest))
  {
  }

  lemma ClosingFrom(s0: seq<byte>, s1: seq<byte>, s2: seq<byte>, allowMove: bool, hasImage: bool)
    requires ReadBool(s0) == Some(Parsed(allowMove, s1)) && ReadBool(s1) == Some(Parsed(hasImage, s2))
    ensures ReadClosing(s0) == match ReadImage(s2, hasImage)
      case None => None
      case Some(i) =>
        match ReadInt32(i.rest)
        case None => None
        case Some(d) => Some(Parsed(Closing(allowMove, i.value, d.value), d.rest))
  {
  }

  lemma StartVoteFrom(s0: seq<byte>, h: Heading, s1: seq<byte>)
    requires ReadHeading(s0) == Some(Parsed(h, s1))
    ensures ReadStartVote(s0) ==
      if !InRange(h.count) then None
      else match ReadUtfList(s1, h.count as nat)
        case None => None
        case Some(o) =>
          match ReadClosing(o.rest)
          case None => None
          case Some(c) =>
            Some(Parsed(StartVoteFields(h.voteId, h.title, h.description, o.value,
                                        c.value.allowMove, c.value.imageData, c.value.durationSec), c.rest))
  {
  }

  lemma VoteStatsFrom(s0: seq<byte>, s1: seq<byte>, s2: seq<byte>, voteId: Str, n: int32)
    requires ReadUtf(s0) == Some(Parsed(voteId, s1)) && ReadInt32(s1) == Some(Parsed(n, s2))
    ensures ReadVoteStats(s0) ==
      if !InRange(n) then None
      else match ReadInt32List(s2, n as nat)
        case None => None
        case Some(c) => Some(Parsed(VoteStatsFields(voteId, c.value), c.rest))
  {
  }

  lemma VoteEndFrom(s0: seq<byte>, s1: seq<byte>, s2: seq<byte>, s3: seq<byte>, voteId: Str, reason: Str, n: int32)
    requires ReadUtf(s0) == Some(Parsed(voteId, s1)) && ReadUtf(s1) == Some(Parsed(reason, s2))
    requires ReadInt32(s2) == Some(Parsed(n, s3))
    ensures ReadVoteEnd(s0) == match ReadInt32List(s3, if InRange(n) then n as nat else 0)
      case None => None
      case Some(c) => Some(Parsed(VoteEndFields(voteId, reason, c.value), c.rest))
  {
  }

  // -------------------------------------------------------------------------
  // The handlers' reads
  // -------------------------------------------------------------------------

  /** The reads of `handleStartVote` before the options: voteId, title, desc and the count. */
  method ParseHeading(cursor: Reader) returns (r: Option<Heading>)
    requires cursor.Valid()
    modifies cursor
    ensures cursor.Valid()
    ensures r == ValueOf(ReadHeading(old(cursor.Unread())))
    ensures r.Some? ==> cursor.Unread() == ReadHeading(old(cursor.Unread())).value.rest
  {
    ghost var s0 := cursor.Unread();
    var voteId := cursor.ReadUTF();
    if voteId.None? { return None; }
    ghost var s1 := cursor.Unread();
    var title := cursor.ReadUTF();
    if title.None? { return None; }
    ghost var s2 := cursor.Unread();
    var desc := cursor.ReadUTF();
    if desc.None? { return None; }
    ghost var s3 := cursor.Unread();
    HeadingFrom(s0, s1, s2, s3, voteId.value, title.value, desc.value);
    var count := cursor.ReadInt();
    if count.None? { return None; }
    r := Some(Heading(voteId.value, title.value, desc.value, count.value));
  }

  /** The reads of `handleStartVote` after the options: allowMove, hasImage, the image
      when hasImage is true, and the duration. */
  method ParseClosing(cursor: Reader) returns (r: Option<Closing>)
    requires cursor.Valid()
    modifies cursor
    ensures cursor.Valid()
    ensures r == ValueOf(ReadClosing(old(cursor.Unread())))
    ensures r.Some? ==> cursor.Unread() == ReadClosing(old(cursor.Unread())).value.rest
  {
    ghost var s0 := cursor.Unread();
    var allowMove := cursor.ReadBoolean();
    if allowMove.None? { return None; }
    ghost var s1 := cursor.Unread();
    var hasImage := cursor.ReadBoolean();
    if hasImage.None? { return None; }
    ghost var s2 := cursor.Unread();
    ClosingFrom(s0, s1, s2, allowMove.value, hasImage.value);
    var imageData: Option<Str> := None;
    if hasImage.value {
      var image := cursor.ReadUTF();
      if image.None? { return None; }
      imageData := Some(image.value);
    }
    ghost var s3 := cursor.Unread();
    assert ReadImage(s2, hasImage.value) == Some(Parsed(imageData, s3));
    var duration := cursor.ReadInt();
    if duration.None? { return None; }
    r := Some(Closing(allowMove.value, imageData, duration.value));
  }

  /** The reads of `handleStartVote`, up to the first one that throws or the count check. */
  method ParseStartVote(cursor: Reader) returns (r: Option<StartVoteFields>)
    requires cursor.Valid()
    modifies cursor
    ensures cursor.Valid()
    ensures r == ValueOf(ReadStartVote(old(cursor.Unread())))
  {
    ghost var s0 := cursor.Unread();
    var h := ParseHeading(cursor);
    if h.None? { return None; }
    StartVoteFrom(s0, h.value, cursor.Unread());
    if h.value.count < 0 || h.value.count > 10_000 { return None; }
    var options := ReadStrings(cursor, h.value.count as nat);
    if options.None? { return None; }
    var c := ParseClosing(cursor);
    if c.None? { return None; }
    r := Some(StartVoteFields(h.value.voteId, h.value.title, h.value.description, options.value,
                              c.value.allowMove, c.value.imageData, c.value.durationSec));
  }

  /** The reads of `handleVoteStats`, up to the first one that throws or the count check. */
  method ParseVoteStats(cursor: Reader) returns (r: Option<VoteStatsFields>)
    requires cursor.Valid()
    modifies cursor
    ensures cursor.Valid()
    ensures r == ValueOf(ReadVoteStats(old(cursor.Unread())))
  {
    ghost var s0 := cursor.Unread();
    var voteId := cursor.ReadUTF();
    if voteId.None? { return None; }
    ghost var s1 := cursor.Unread();
    var n := cursor.ReadInt();
    if n.None? { return None; }
    VoteStatsFrom(s0, s1, cursor.Unread(), voteId.value, n.value);
    if n.value < 0 || n.value > 10_000 { return None; }
    var counts := ReadCounts(cursor, n.value as nat);
    if counts.None? { return None; }
    r := Some(VoteStatsFields(voteId.value, counts.value));
  }

  /** The reads of `handleVoteEnd`; an out-of-range count reads as zero counts. */
  method ParseVoteEnd(cursor: Reader) returns (r: Option<VoteEndFields>)
    requires cursor.Valid()
    modifies cursor
    ensures cursor.Valid()
    ensures r == ValueOf(ReadVoteEnd(old(cursor.Unread())))
  {
    ghost var s0 := cursor.Unread();
    var voteId := cursor.ReadUTF();
    if voteId.None? { return None; }
    ghost var s1 := cursor.Unread();
    var reason := cursor.ReadUTF();
    if reason.None? { return None; }
    ghost var s2 := cursor.Unread();
    var n := cursor.ReadInt();
    if n.None? { return None; }
    ghost var s3 := cursor.Unread();
    VoteEndFrom(s0, s1, s2, s3, voteId.value, reason.value, n.value);
    var m: int32 := n.value;
    if m < 0 || m > 10_000 { m := 0; }
    var counts := ReadCounts(cursor, m as nat);
    if counts.None? { return None; }
    r := Some(VoteEndFields(voteId.value, reason.value, counts.value));
  }

  // -------------------------------------------------------------------------
  // What each message does to the client state
  // -------------------------------------------------------------------------

  function Without(m: map<Str, VoteScreen>, prev: VoteScreen?): map<Str, VoteScreen> {
    if prev == null then m else m - {prev.voteId}
  }

  /** A StartVote displays a new screen built from the fields, laid out for the window, with
      zero counts; the screen displayed before, if any, is removed, which deregisters its id
      (even when it is the new screen's id) and lifts any freeze, so the new vote's freeze
      survives only when no vote screen was displayed. */
  ghost predicate VoteOpened(st: ClientState, before: Snapshot, f: StartVoteFields, host: Host)
    reads st, st.Shown(), Opt(before.current)
  {
    |f.options| <= MAX_ENTRIES && st.current != null && st.current != before.current &&
    var s := st.current;
    s.voteId == f.voteId && s.titleText == f.title && s.description == f.description &&
    s.options == f.options && s.freezeMovement == !f.allowMove &&
    s.imageData == f.imageData && s.durationSec == f.durationSec &&
    s.counts == Zeros(|f.options|) && s.buttons == Layout(host.width, host.height, f.options) &&
    s.background == (f.imageData.Some? && host.image == Decoded) &&
    s.textureOpen == (f.imageData.Some? && host.image == Decoded) &&
    st.active == Without(before.active[f.voteId := s], before.current) &&
    st.freeze == (!f.allowMove && before.current == null) &&
    (before.current != null ==> !before.current.textureOpen)
  }

  /** The counts a registered screen shows after a VoteStats: the new ones when there is one
      per option, else the old ones. */
  function StatsAfter(before: Snapshot, f: VoteStatsFields): seq<int32> {
    if before.current != null && f.voteId in before.active && |f.counts| == |before.counts|
    then f.counts else before.counts
  }

  /** A VoteStats changes at most the displayed screen's counts. */
  ghost predicate StatsApplied(st: ClientState, before: Snapshot, f: VoteStatsFields)
    reads st, st.Shown()
  {
    st.Snap() == before.(counts := StatsAfter(before, f))
  }

  /** A VoteEnd always lifts the freeze; when its vote is registered, that screen (the displayed
      one) takes the final counts if there is one per option and closes. */
  ghost predicate VoteEnded(st: ClientState, before: Snapshot, f: VoteEndFields)
    reads st, st.Shown(), Opt(before.current)
  {
    !st.freeze &&
    if f.voteId in before.active then
      before.current != null && before.current.voteId == f.voteId &&
      st.current == null && st.active == before.active - {f.voteId} && !before.current.textureOpen &&
      before.current.counts == (if |f.counts| == |before.counts| then f.counts else before.counts)
    else
      st.Snap() == before.(freeze := false)
  }

  /** A StartVote that reads in full opens its screen; one that does not changes nothing. */
  ghost predicate StartVoteOutcome(st: ClientState, before: Snapshot, r: Option<StartVoteFields>, host: Host)
    reads st, st.Shown(), Opt(before.current)
  {
    match r
    case None => st.Snap() == before
    case Some(f) => VoteOpened(st, before, f, host)
  }

  ghost predicate VoteStatsOutcome(st: ClientState, before: Snapshot, r: Option<VoteStatsFields>)
    reads st, st.Shown()
  {
    match r
    case None => st.Snap() == before
    case Some(f) => StatsApplied(st, before, f)
  }

  ghost predicate VoteEndOutcome(st: ClientState, before: Snapshot, r: Option<VoteEndFields>)
    reads st, st.Shown(), Opt(before.current)
  {
    match r
    case None => st.Snap() == before
    case Some(f) => VoteEnded(st, before, f)
  }

  // -------------------------------------------------------------------------
  // The handlers
  // -------------------------------------------------------------------------

  /** `handleStartVote`: the reads, then the freeze when movement is not allowed, then the
      new screen is built (registering itself) and displayed. */
  method HandleStartVote(cursor: Reader, st: ClientState, host: Host)
    requires cursor.Valid() && st.Valid()
    modifies cursor, st, st.Shown()`textureOpen
    ensures st.Valid()
    ensures StartVoteOutcome(st, old(st.Snap()), ValueOf(ReadStartVote(old(cursor.Unread()))), host)
    ensures ValueOf(ReadStartVote(old(cursor.Unread()))).Some? ==> fresh(st.current)
  {
    var fields := ParseStartVote(cursor);
    if fields.None? {
      return;
    }
    ShowVote(st, fields.value, host);
  }

  /** What `handleStartVote` does once every field is read. */
  method ShowVote(st: ClientState, f: StartVoteFields, host: Host)
    requires st.Valid() && |f.options| <= MAX_ENTRIES
    modifies st, st.Shown()`textureOpen
    ensures st.Valid() && fresh(st.current)
    ensures VoteOpened(st, old(st.Snap()), f, host)
  {
    if !f.allowMove {
      st.FreezeMovement();
    }
    var screen := new VoteScreen(st, f.voteId, f.title, f.description, f.options,
                                 !f.allowMove, f.imageData, f.durationSec);
    st.OpenScreen(screen, host.width, host.height, host.image);
  }

  /** `handleVoteStats`: the reads, then `updateStats`. */
  method HandleVoteStats(cursor: Reader, st: ClientState)
    requires cursor.Valid() && st.Valid()
    modifies cursor, st.Shown()`counts
    ensures st.Valid()
    ensures VoteStatsOutcome(st, old(st.Snap()), ValueOf(ReadVoteStats(old(cursor.Unread()))))
  {
    var fields := ParseVoteStats(cursor);
    if fields.None? {
      return;
    }
    VoteScreen.UpdateStats(st, fields.value.voteId, fields.value.counts);
  }

  /** `handleVoteEnd`: the reads, then `forceClose`, then the freeze is lifted. */
  method HandleVoteEnd(cursor: Reader, st: ClientState)
    requires cursor.Valid() && st.Valid()
    modifies cursor, st, st.Shown()`counts, st.Shown()`textureOpen
    ensures st.Valid()
    ensures VoteEndOutcome(st, old(st.Snap()), ValueOf(ReadVoteEnd(old(cursor.Unread()))))
  {
    var fields := ParseVoteEnd(cursor);
    if fields.None? {
      return;
    }
    VoteScreen.ForceClose(st, fields.value.voteId, Some(fields.value.counts));
    st.Unfreeze();
  }

  // -------------------------------------------------------------------------
  // The receiver
  // -------------------------------------------------------------------------

  /** The effect of one payload, by what it decodes to; `sent` is the reply, if any. */
  ghost predicate Outcome(st: ClientState, before: Snapshot, msg: Incoming, host: Host, sent: Option<seq<byte>>)
    reads st, st.Shown(), Opt(before.current)
    requires HostValid(host)
  {
    match msg
    case RequestModsMsg => sent == ModListMessage(host.modIds, host.packNames) && st.Snap() == before
    case StartVoteMsg(r) => sent == None && StartVoteOutcome(st, before, r, host)
    case VoteStatsMsg(r) => sent == None && VoteStatsOutcome(st, before, r)
    case VoteEndMsg(r) => sent == None && VoteEndOutcome(st, before, r)
    case _ => sent == None && st.Snap() == before
  }

  /** The messages that display a new screen. */
  predicate Opens(msg: Incoming) {
    msg.StartVoteMsg? && msg.start.Some?
  }

  /** The switch of the receiver, once the tag is read: the handler runs on the rest of the
      payload; Pong and unknown tags are only logged. */
  method Dispatch(cursor: Reader, tag: Str, st: ClientState, host: Host) returns (sent: Option<seq<byte>>)
    requires cursor.Valid() && st.Valid() && HostValid(host)
    modifies cursor, st, st.Shown()`counts, st.Shown()`textureOpen
    ensures st.Valid()
    ensures Outcome(st, old(st.Snap()), Dispatched(tag, old(cursor.Unread())), host, sent)
    ensures Opens(Dispatched(tag, old(cursor.Unread()))) ==> fresh(st.current)
  {
    sent := None;
    match Route(tag)
    case RequestMods =>
      sent := WriteModList(host.modIds, host.packNames);
    case StartVote =>
      HandleStartVote(cursor, st, host);
    case VoteStats =>
      HandleVoteStats(cursor, st);
    case VoteEnd =>
      HandleVoteEnd(cursor, st);
    case Pong =>
    case Unknown =>
  }

  /** The global receiver: a payload whose tag cannot be read is dropped; any other goes to
      the handler its tag names. */
  method Receive(st: ClientState, payload: array<byte>, host: Host) returns (sent: Option<seq<byte>>)
    requires st.Valid() && HostValid(host)
    modifies st, st.Shown()`counts, st.Shown()`textureOpen
    ensures st.Valid()
    ensures Outcome(st, old(st.Snap()), Decode(payload[..]), host, sent)
    ensures Opens(Decode(payload[..])) ==> fresh(st.current)
  {
    var cursor := new Reader(payload);
    assert cursor.Unread() == payload[..];
    var tag := cursor.ReadUTF();
    if tag.None? {
      return None;
    }
    assert Decode(payload[..]) == Dispatched(tag.value, cursor.Unread());
    sent := Dispatch(cursor, tag.value, st, host);
  }

  // -------------------------------------------------------------------------
  // The toast text of logClient
  // -------------------------------------------------------------------------

  /** A Java `char`: one UTF-16 code unit. */
  newtype CodeUnit = x: int | 0 <= x < 0x1_0000

  const TOAST_LIMIT: nat := 60
  const ELLIPSIS: seq<CodeUnit> := [0x2E, 0x2E, 0x2E]

  /** A message longer than 60 code units is cut to its first 60 and marked with "...". */
  function Abbreviate(msg: seq<CodeUnit>): (r: seq<CodeUnit>)
    ensures |r| <= TOAST_LIMIT + |ELLIPSIS|
    ensures |msg| <= TOAST_LIMIT ==> r == msg
    ensures |msg| > TOAST_LIMIT ==>
      |r| == TOAST_LIMIT + |ELLIPSIS| && r[..TOAST_LIMIT] == msg[..TOAST_LIMIT] && r[TOAST_LIMIT..] == ELLIPSIS
  {
    if |msg| > TOAST_LIMIT then msg[..TOAST_LIMIT] + ELLIPSIS else msg
  }

  /** Abbreviating an abbreviated message changes nothing more. */
  lemma AbbreviateIdempotent(msg: seq<CodeUnit>)
    ensures Abbreviate(Abbreviate(msg)) == Abbreviate(msg)
  {
    if |msg| > TOAST_LIMIT {
      var r := Abbreviate(msg);
      assert r[..TOAST_LIMIT] + ELLIPSIS == r;
    }
  }
}
