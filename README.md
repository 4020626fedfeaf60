# Security client: plugin-channel codec, dispatcher and vote screens

This project models the client side of a Minecraft server's security and voting protocol,
in Dafny. The client is a Fabric mod. Its core has two parts:

- **The plugin-channel receiver** (`SecurityClientMod.java`). It reads a subchannel tag from
  each server payload. It then routes the payload to one of the handlers: `RequestMods`,
  `StartVote`, `VoteStats`, `VoteEnd`, `Pong`, or unknown. The same file also encodes the
  two client messages, `VoteResponse` and `ModList`.
- **The vote screen** (`VoteScreen.java`). It keeps a registry of active votes, keyed by
  vote id, with each vote's counts. It lays out one button per option. Pressing a button
  answers the vote and closes the screen.

The model has four modules:

- **`Wire`** is the `DataInput`/`DataOutput` byte format.
  - A string is a 2-byte big-endian length followed by that many bytes.
  - An `int` is 4 bytes in big-endian two's complement.
  - A boolean is one byte; any non-zero byte reads as true.
  - Decoders are pure functions from a byte sequence to `Option<Parsed<T>>`, which is the
    value plus the unread suffix. Round-trip lemmas are stated for any trailing bytes.
  - The cursor (`Reader`) and the output stream (`Writer`) are classes. Their methods are
    proved equal to those functions.
- **`Protocol`** has the message layouts and the subchannel routing.
  - It has the decoders for the three server messages that carry a body. A decoder returns
    `None` exactly where a read runs out of bytes, or where the handler returns early on an
    out-of-range count.
  - It has the encoders for the two client messages, plus the `Decode` function for one
    whole payload.
- **`VoteScreens`** has the `VoteScreen` class and `ClientState`.
  - `ClientState` holds three things: the static `ACTIVE` map, the static `freezeMovement`
    flag, and the screen the game client currently displays.
- **`SecurityClient`** has the handlers, the receiver and the truncation of toast text.
  - The handlers read with a `Reader`, using loops for the option list and the counts.

The receiver `Receive` is specified with a one-state predicate, `Outcome`. It takes the
client state after the call and a `Snapshot` of the state before it. It states, by what the
payload decodes to:

- **`Unreadable` (tag cannot be read), `Pong`, unknown tags, and messages whose body does not
  read in full:** change nothing.
- **`RequestMods`:** answers with the encoded mod list and changes nothing.
- **`StartVote`:** shows a new screen with zero counts and one button per option. The new
  screen stays registered under its id unless the screen it displaces has the same id (see
  below).
- **`VoteStats`:** changes at most the displayed screen's counts.
- **`VoteEnd`:** always lifts the movement freeze. If the vote is registered, it also copies
  the final counts into that screen (when there is one per option) and closes it.

**How the game client switches screens.** The game client is represented by `current`.
`MinecraftClient.setScreen` is modelled as follows:

1. The outgoing vote screen is sent `removed()`.
2. The incoming screen becomes current.
3. The incoming screen is sent `init()`.

Any screen other than a vote screen is represented by `current == null`.

**Consequences, stated exactly in `VoteOpened`, for a `StartVote` that arrives while a vote
screen is displayed:**

- The old screen's `removed()` runs after the handler has set the freeze, and it lifts the
  freeze. So the new vote keeps movement frozen only when no vote screen was displayed
  before it.
- When the old screen has the same vote id, its `removed()` deregisters the id that the new
  screen has just registered.

**Integer arithmetic.** Java `int` arithmetic in the layout is written out:

- wrap-around modulo 2^32 is `Wrap`;
- division truncating toward zero is `JavaDiv`.

The integers in wire fields are the `int32` newtype.

## Model

All source paths are under `fabric-mod/src/main/java/com/rehard/securityclient/`. The table
gives them in full.

| member | source | states |
|---|---|---|
| `Wire.ReadU16` | fabric-mod/src/main/java/com/rehard/securityclient/SecurityClientMod.java:238-244 | the 2-byte length prefix reads exactly when 2 bytes are there; it is at most 65535, and the rest is the input after it |
| `Wire.U16RoundTrip` | fabric-mod/src/main/java/com/rehard/securityclient/SecurityClientMod.java:111 | reading back the written length prefix gives the same length and leaves the trailing bytes |
| `Wire.ReadUtf` | fabric-mod/src/main/java/com/rehard/securityclient/SecurityClientMod.java:238-244 | a string read succeeds only when the whole body is present; the body fits a 2-byte length, and the rest is what follows the body |
| `Wire.UtfRoundTrip` | fabric-mod/src/main/java/com/rehard/securityclient/SecurityClientMod.java:111-112 | reading back any string that `writeUTF` accepts gives that string, followed by the untouched trailing bytes |
| `Wire.UtfConsumed` | fabric-mod/src/main/java/com/rehard/securityclient/SecurityClientMod.java:240 | every successful string read consumed exactly one encoded string: the input is that encoding followed by the rest |
| `Wire.Int32Bytes` | fabric-mod/src/main/java/com/rehard/securityclient/SecurityClientMod.java:113 | the four bytes `writeInt` produces are the big-endian base-256 digits of the unsigned (two's complement) value |
| `Wire.ReadInt32` | fabric-mod/src/main/java/com/rehard/securityclient/SecurityClientMod.java:171 | an `int` read succeeds exactly when 4 bytes are there, and consumes exactly 4 |
| `Wire.Int32RoundTrip` | fabric-mod/src/main/java/com/rehard/securityclient/SecurityClientMod.java:113 | reading back any written `int`, negative ones included, gives the same value and leaves the trailing bytes |
| `Wire.Int32Consumed` | fabric-mod/src/main/java/com/rehard/securityclient/SecurityClientMod.java:171 | every successful `int` read consumed exactly the encoding of the value read |
| `Wire.ReadBool` | fabric-mod/src/main/java/com/rehard/securityclient/SecurityClientMod.java:175 | a boolean read succeeds exactly when a byte is there; it is true exactly when the byte is non-zero, and consumes one byte |
| `Wire.BoolRoundTrip` | fabric-mod/src/main/java/com/rehard/securityclient/SecurityClientMod.java:175-176 | reading back a written boolean gives the same value and leaves the trailing bytes |
| `Wire.ReadUtfList` | fabric-mod/src/main/java/com/rehard/securityclient/SecurityClientMod.java:174 | reading n strings in a row gives exactly n strings, each of which fits a 2-byte length |
| `Wire.UtfListRoundTrip` | fabric-mod/src/main/java/com/rehard/securityclient/SecurityClientMod.java:146 | reading back a list of written strings, given its length, gives the same list and leaves the trailing bytes |
| `Wire.UtfListConsumed` | fabric-mod/src/main/java/com/rehard/securityclient/SecurityClientMod.java:174 | a successful read of n strings consumed exactly their encodings |
| `Wire.UtfListFailureStays` | fabric-mod/src/main/java/com/rehard/securityclient/SecurityClientMod.java:174 | once one of the string reads fails, reading any longer list fails too |
| `Wire.ReadInt32List` | fabric-mod/src/main/java/com/rehard/securityclient/SecurityClientMod.java:199 | reading n ints in a row gives exactly n ints |
| `Wire.Int32ListRoundTrip` | fabric-mod/src/main/java/com/rehard/securityclient/SecurityClientMod.java:199 | reading back written ints, given their number, gives the same ints and leaves the trailing bytes |
| `Wire.Int32ListConsumed` | fabric-mod/src/main/java/com/rehard/securityclient/SecurityClientMod.java:216 | a successful read of n ints consumed exactly their encodings |
| `Wire.Int32ListFailureStays` | fabric-mod/src/main/java/com/rehard/securityclient/SecurityClientMod.java:199 | once one of the int reads fails, reading any longer run fails too |
| `Wire.UtfListExtend` | fabric-mod/src/main/java/com/rehard/securityclient/SecurityClientMod.java:174 | bytes appended after a readable list of strings do not change what is read; they are only added to the rest |
| `Wire.Utf` | fabric-mod/src/main/java/com/rehard/securityclient/SecurityClientMod.java:111 | `writeUTF` writes the 2-byte length and then the body, 2 + n bytes in all; `UtfRoundTrip` and `UtfConsumed` are its inverse |
| `Wire.Int32BE` | fabric-mod/src/main/java/com/rehard/securityclient/SecurityClientMod.java:113 | `writeInt` writes exactly 4 bytes; `Int32RoundTrip` and `Int32Bytes` pin their value |
| `Wire.UtfList` | fabric-mod/src/main/java/com/rehard/securityclient/SecurityClientMod.java:146 | one `writeUTF` per string: at least 2 bytes per string, and empty exactly for the empty list; `UtfListRoundTrip` is its inverse |
| `Wire.Int32List` | fabric-mod/src/main/java/com/rehard/securityclient/SecurityClientMod.java:199 | one `writeInt` per count: exactly 4 bytes each; `Int32ListRoundTrip` is its inverse |
| `Wire.Reader.constructor` | fabric-mod/src/main/java/com/rehard/securityclient/SecurityClientMod.java:65 | a fresh cursor over the payload starts at its first byte, so everything is unread |
| `Wire.Reader.ReadUTF` | fabric-mod/src/main/java/com/rehard/securityclient/SecurityClientMod.java:240 | the cursor reads what `ReadUtf` gives on its unread bytes, and moves past exactly those bytes |
| `Wire.Reader.ReadInt` | fabric-mod/src/main/java/com/rehard/securityclient/SecurityClientMod.java:171 | the cursor reads what `ReadInt32` gives on its unread bytes, and moves past them |
| `Wire.Reader.ReadBoolean` | fabric-mod/src/main/java/com/rehard/securityclient/SecurityClientMod.java:175 | the cursor reads what `ReadBool` gives on its unread bytes, and moves past them |
| `Wire.Writer.constructor` | fabric-mod/src/main/java/com/rehard/securityclient/SecurityClientMod.java:110 | a fresh output stream holds no bytes |
| `Wire.Writer.WriteUTF` | fabric-mod/src/main/java/com/rehard/securityclient/SecurityClientMod.java:111 | the write succeeds exactly when the body fits a 2-byte length; it then appends the encoding, and otherwise leaves the output as it was |
| `Wire.Writer.WriteInt` | fabric-mod/src/main/java/com/rehard/securityclient/SecurityClientMod.java:113 | appends the 4-byte encoding of the value |
| `Protocol.TagsDistinct` | fabric-mod/src/main/java/com/rehard/securityclient/SecurityClientMod.java:68-75 | the five subchannel tags are pairwise different, so no two switch cases overlap |
| `Protocol.RouteExact` | fabric-mod/src/main/java/com/rehard/securityclient/SecurityClientMod.java:68-75 | a tag routes to a handler exactly when it equals that handler's tag, and to the unknown case exactly when it equals none of them |
| `Protocol.UnreadableExactly` | fabric-mod/src/main/java/com/rehard/securityclient/SecurityClientMod.java:66-67 | a payload is dropped as unreadable exactly when it is shorter than 2 bytes, or shorter than its own length prefix says |
| `Protocol.Route` | fabric-mod/src/main/java/com/rehard/securityclient/SecurityClientMod.java:68-75 | a tag falls to the default case exactly when it is none of the five known tags |
| `Protocol.Decode` | fabric-mod/src/main/java/com/rehard/securityclient/SecurityClientMod.java:63-76 | a payload is unreadable exactly when its tag cannot be read; otherwise the message kind is the one its tag names, and an unknown tag is kept |
| `Protocol.Dispatched` | fabric-mod/src/main/java/com/rehard/securityclient/SecurityClientMod.java:68-75 | once the tag is read, each known tag gives its own message kind and every other tag gives the unknown kind carrying that tag |
| `Protocol.ReadHeading` | fabric-mod/src/main/java/com/rehard/securityclient/SecurityClientMod.java:168-171 | a heading that reads has three encodable strings and takes at least 10 bytes |
| `Protocol.ReadClosing` | fabric-mod/src/main/java/com/rehard/securityclient/SecurityClientMod.java:175-179 | a closing part that reads has an encodable image, if any, and takes at least 6 bytes |
| `Protocol.ReadImage` | fabric-mod/src/main/java/com/rehard/securityclient/SecurityClientMod.java:176-178 | the image string is present exactly when the `hasImage` flag is set |
| `Protocol.ReadStartVote` | fabric-mod/src/main/java/com/rehard/securityclient/SecurityClientMod.java:168-179 | a StartVote body that reads in full carries at most 10000 options |
| `Protocol.HeadingRoundTrip` | fabric-mod/src/main/java/com/rehard/securityclient/SecurityClientMod.java:168-171 | vote id, title, description and option count read back as written |
| `Protocol.HeadingConsumed` | fabric-mod/src/main/java/com/rehard/securityclient/SecurityClientMod.java:168-171 | a heading that reads is exactly the encoding of what was read, followed by the rest |
| `Protocol.ClosingRoundTrip` | fabric-mod/src/main/java/com/rehard/securityclient/SecurityClientMod.java:175-179 | the movement flag, the optional image and the duration read back as written |
| `Protocol.StartVoteRoundTrip` | fabric-mod/src/main/java/com/rehard/securityclient/SecurityClientMod.java:168-179 | every StartVote with 0 to 10000 options and encodable strings reads back field for field, followed by the trailing bytes |
| `Protocol.StartVoteExtend` | fabric-mod/src/main/java/com/rehard/securityclient/SecurityClientMod.java:168-179 | bytes after a complete StartVote body are ignored by the reads |
| `Protocol.NoDecodablePrefix` | fabric-mod/src/main/java/com/rehard/securityclient/SecurityClientMod.java:185-187 | no proper prefix of an exactly-consumed StartVote body reads as a StartVote |
| `Protocol.StartVoteTruncated` | fabric-mod/src/main/java/com/rehard/securityclient/SecurityClientMod.java:185-187 | a StartVote body cut short anywhere does not read, so no screen opens |
| `Protocol.StartVoteCountRejected` | fabric-mod/src/main/java/com/rehard/securityclient/SecurityClientMod.java:172 | an option count below 0 or above 10000 rejects the StartVote, whatever follows |
| `Protocol.ReadVoteStats` | fabric-mod/src/main/java/com/rehard/securityclient/SecurityClientMod.java:195-199 | a VoteStats body that reads carries at most 10000 counts |
| `Protocol.VoteStatsRoundTrip` | fabric-mod/src/main/java/com/rehard/securityclient/SecurityClientMod.java:195-199 | a VoteStats with 0 to 10000 counts reads back as written |
| `Protocol.VoteStatsConsumed` | fabric-mod/src/main/java/com/rehard/securityclient/SecurityClientMod.java:195-199 | a VoteStats body that reads is exactly the encoding of what was read, followed by the rest |
| `Protocol.VoteStatsCountRejected` | fabric-mod/src/main/java/com/rehard/securityclient/SecurityClientMod.java:197 | a count below 0 or above 10000 rejects the VoteStats, whatever follows |
| `Protocol.ReadVoteEnd` | fabric-mod/src/main/java/com/rehard/securityclient/SecurityClientMod.java:211-216 | a VoteEnd body that reads carries at most 10000 counts |
| `Protocol.VoteEndHeaderRead` | fabric-mod/src/main/java/com/rehard/securityclient/SecurityClientMod.java:211-213 | vote id, reason and count read back one after another as written |
| `Protocol.VoteEndRoundTrip` | fabric-mod/src/main/java/com/rehard/securityclient/SecurityClientMod.java:211-216 | a VoteEnd with 0 to 10000 counts reads back as written |
| `Protocol.VoteEndCountClamped` | fabric-mod/src/main/java/com/rehard/securityclient/SecurityClientMod.java:214 | an out-of-range count is taken as zero: the VoteEnd still reads, with no counts, and nothing after the count is consumed |
| `Protocol.VoteEndConsumed` | fabric-mod/src/main/java/com/rehard/securityclient/SecurityClientMod.java:211-216 | a VoteEnd body that reads is either the encoding of what was read, or its header with an out-of-range count and no counts |
| `Protocol.DecodeStartVote` | fabric-mod/src/main/java/com/rehard/securityclient/SecurityClientMod.java:70 | a payload tagged `StartVote` followed by an encoded vote decodes to exactly that vote |
| `Protocol.DecodeVoteStats` | fabric-mod/src/main/java/com/rehard/securityclient/SecurityClientMod.java:71 | a payload tagged `VoteStats` followed by encoded stats decodes to exactly those stats |
| `Protocol.DecodeVoteEnd` | fabric-mod/src/main/java/com/rehard/securityclient/SecurityClientMod.java:72 | a payload tagged `VoteEnd` followed by an encoded end decodes to exactly that end |
| `Protocol.VoteResponseMessage` | fabric-mod/src/main/java/com/rehard/securityclient/SecurityClientMod.java:110-113 | a VoteResponse exists exactly when the vote id can be written; it starts with the `VoteResponse` tag and has the tag, the id and 4 bytes of index |
| `Protocol.VoteResponseRoundTrip` | fabric-mod/src/main/java/com/rehard/securityclient/SecurityClientMod.java:110-113 | a VoteResponse is produced for every encodable vote id, and the server-side read gives back the id and the option index |
| `Protocol.WriteVoteResponse` | fabric-mod/src/main/java/com/rehard/securityclient/SecurityClientMod.java:108-119 | the bytes written through the output stream are the VoteResponse message, or nothing when the id cannot be written |
| `Protocol.ModListMessage` | fabric-mod/src/main/java/com/rehard/securityclient/SecurityClientMod.java:143-148 | a ModList exists exactly when every string can be written; it starts with the `ModList` tag and has room for both counts and every string |
| `Protocol.ModListRoundTrip` | fabric-mod/src/main/java/com/rehard/securityclient/SecurityClientMod.java:143-148 | a ModList is produced exactly when every mod id and pack name is encodable, and it reads back as both lists in order |
| `Protocol.WriteAll` | fabric-mod/src/main/java/com/rehard/securityclient/SecurityClientMod.java:146 | the loop succeeds exactly when every string fits, and then appends their encodings in order |
| `Protocol.WriteModList` | fabric-mod/src/main/java/com/rehard/securityclient/SecurityClientMod.java:126-156 | the bytes written are the ModList message, or nothing when a string cannot be written |
| `VoteScreens.Wrap` | fabric-mod/src/main/java/com/rehard/securityclient/VoteScreen.java:64 | a Java `int` result is congruent to the exact value modulo 2^32, and equal to it when it fits |
| `VoteScreens.JavaDiv` | fabric-mod/src/main/java/com/rehard/securityclient/VoteScreen.java:64 | Java division by a positive divisor truncates toward zero |
| `VoteScreens.ButtonX` | fabric-mod/src/main/java/com/rehard/securityclient/VoteScreen.java:64 | a button column fits the window and is centred to within one pixel when the window is at least 220 wide; for narrower windows it is minus half the shortfall, rounded toward zero |
| `VoteScreens.ButtonY` | fabric-mod/src/main/java/com/rehard/securityclient/VoteScreen.java:55-64 | button i sits at a quarter of the height plus 26 per earlier button when that does not overflow |
| `VoteScreens.Layout` | fabric-mod/src/main/java/com/rehard/securityclient/VoteScreen.java:59-66 | one button per option, in option order; each is labelled by its option, carries its own index, shares the centred column, sits at row `ButtonY(height, i)` and is 220 by 20 |
| `VoteScreens.ButtonsStacked` | fabric-mod/src/main/java/com/rehard/securityclient/VoteScreen.java:56-64 | consecutive buttons are 26 pixels apart and do not overlap when nothing overflows |
| `VoteScreens.LabelFor` | fabric-mod/src/main/java/com/rehard/securityclient/VoteScreen.java:145-147 | a count label shows its count, 6 pixels right of its button and vertically centred on a 20-pixel button |
| `VoteScreens.Zeros` | fabric-mod/src/main/java/com/rehard/securityclient/VoteScreen.java:49 | a fresh count array has one zero per option |
| `VoteScreens.VoteScreen.constructor` | fabric-mod/src/main/java/com/rehard/securityclient/VoteScreen.java:39-51 | the screen keeps its fields and has zero counts, no buttons and no texture; it registers itself under its id, replacing any earlier entry |
| `VoteScreens.VoteScreen.Init` | fabric-mod/src/main/java/com/rehard/securityclient/VoteScreen.java:53-81 | the layout's buttons are appended to those already present; the background follows the image rule |
| `VoteScreens.VoteScreen.LoadBackground` | fabric-mod/src/main/java/com/rehard/securityclient/VoteScreen.java:68-80 | no or blank image changes nothing; a decodable image opens a texture and sets the background; an undecodable one clears the background |
| `VoteScreens.VoteScreen.Removed` | fabric-mod/src/main/java/com/rehard/securityclient/VoteScreen.java:83-91 | deregisters the screen's id, lifts the freeze and closes its texture |
| `VoteScreens.VoteScreen.CountLabels` | fabric-mod/src/main/java/com/rehard/securityclient/VoteScreen.java:143-149 | one label per button that has a count, pairing button i with count i |
| `VoteScreens.VoteScreen.Press` | fabric-mod/src/main/java/com/rehard/securityclient/VoteScreen.java:61-63 | pressing button k sends that vote's id with the button's option index, which lies among the options; the screen then closes and deregisters |
| `VoteScreens.VoteScreen.UpdateStats` | fabric-mod/src/main/java/com/rehard/securityclient/VoteScreen.java:161-166 | counts are replaced exactly when the id is registered and the length matches; nothing else changes |
| `VoteScreens.VoteScreen.ForceClose` | fabric-mod/src/main/java/com/rehard/securityclient/VoteScreen.java:172-180 | an unregistered id changes nothing; a registered one is the displayed screen, which copies the counts when the lengths match and closes |
| `VoteScreens.ClientState.constructor` | fabric-mod/src/main/java/com/rehard/securityclient/VoteScreen.java:26 | no vote is registered, movement is not frozen and no vote screen is displayed |
| `VoteScreens.ClientState.FreezeMovement` | fabric-mod/src/main/java/com/rehard/securityclient/SecurityClientMod.java:249 | sets the freeze flag |
| `VoteScreens.ClientState.Unfreeze` | fabric-mod/src/main/java/com/rehard/securityclient/SecurityClientMod.java:250 | clears the freeze flag |
| `VoteScreens.ClientState.Displace` | fabric-mod/src/main/java/com/rehard/securityclient/VoteScreen.java:83-91 | the game client's `removed()` call on the outgoing screen, if there is one |
| `VoteScreens.ClientState.ClearScreen` | fabric-mod/src/main/java/com/rehard/securityclient/VoteScreen.java:153-155 | closing the displayed vote screen deregisters it, lifts the freeze and leaves no vote screen |
| `VoteScreens.ClientState.OpenScreen` | fabric-mod/src/main/java/com/rehard/securityclient/SecurityClientMod.java:182-184 | displaying a screen removes the outgoing one, then lays out the incoming one; the registry stays consistent |
| `SecurityClient.ReadStrings` | fabric-mod/src/main/java/com/rehard/securityclient/SecurityClientMod.java:174 | the loop reads exactly what `ReadUtfList` gives and leaves the cursor after it |
| `SecurityClient.ReadCounts` | fabric-mod/src/main/java/com/rehard/securityclient/SecurityClientMod.java:198-199 | the loop fills the array with exactly what `ReadInt32List` gives and leaves the cursor after it |
| `SecurityClient.ParseHeading` | fabric-mod/src/main/java/com/rehard/securityclient/SecurityClientMod.java:168-171 | the four cursor reads give `ReadHeading` of the unread bytes |
| `SecurityClient.ParseClosing` | fabric-mod/src/main/java/com/rehard/securityclient/SecurityClientMod.java:175-179 | the cursor reads give `ReadClosing` of the unread bytes |
| `SecurityClient.ParseStartVote` | fabric-mod/src/main/java/com/rehard/securityclient/SecurityClientMod.java:168-179 | the cursor reads, with the count check, give `ReadStartVote` of the unread bytes |
| `SecurityClient.ParseVoteStats` | fabric-mod/src/main/java/com/rehard/securityclient/SecurityClientMod.java:195-199 | the cursor reads, with the count check, give `ReadVoteStats` of the unread bytes |
| `SecurityClient.ParseVoteEnd` | fabric-mod/src/main/java/com/rehard/securityclient/SecurityClientMod.java:211-216 | the cursor reads, with the count clamp, give `ReadVoteEnd` of the unread bytes |
| `SecurityClient.ShowVote` | fabric-mod/src/main/java/com/rehard/securityclient/SecurityClientMod.java:181-184 | freeze, construction and display yield the screen `VoteOpened` describes |
| `SecurityClient.HandleStartVote` | fabric-mod/src/main/java/com/rehard/securityclient/SecurityClientMod.java:166-188 | a body that reads opens its vote screen; one that does not changes nothing |
| `SecurityClient.HandleVoteStats` | fabric-mod/src/main/java/com/rehard/securityclient/SecurityClientMod.java:193-204 | a body that reads changes at most the displayed screen's counts; one that does not changes nothing |
| `SecurityClient.HandleVoteEnd` | fabric-mod/src/main/java/com/rehard/securityclient/SecurityClientMod.java:209-229 | a body that reads lifts the freeze and closes the registered screen with its final counts; one that does not changes nothing |
| `SecurityClient.Dispatch` | fabric-mod/src/main/java/com/rehard/securityclient/SecurityClientMod.java:68-75 | the handler named by the tag runs on the rest of the payload; `RequestMods` answers with the mod list; `Pong` and unknown tags change nothing |
| `SecurityClient.Receive` | fabric-mod/src/main/java/com/rehard/securityclient/SecurityClientMod.java:63-76 | the effect of a payload is `Outcome` of what `Decode` makes of it: an unreadable tag changes nothing, every other tag acts as `Dispatch` says |
| `SecurityClient.Abbreviate` | fabric-mod/src/main/java/com/rehard/securityclient/SecurityClientMod.java:266 | toast text of at most 60 characters is unchanged; longer text becomes its first 60 characters followed by "..." |
| `SecurityClient.AbbreviateIdempotent` | fabric-mod/src/main/java/com/rehard/securityclient/SecurityClientMod.java:266 | abbreviating already shortened text changes nothing |

## Left out

- VoteScreens.VoteScreen.Press: when the vote id cannot be written (its encoding is over
  65535 bytes), the model sends nothing and still closes the screen. In Java,
  `ByteArrayDataOutput.writeUTF` rethrows the format error as an `AssertionError`. The
  `catch (Exception e)` at `SecurityClientMod.java:116` does not catch it, so it escapes
  the button callback and `close()` never runs. The model does not capture that escaping
  error and its effect on the game client.
- Protocol.WriteVoteResponse and Protocol.WriteModList: the same holds for them. `None`
  stands for the `AssertionError` escaping `sendVoteResponse` and `sendModList` (lines 116
  and 153 do not catch it). It does not stand for a caught, logged failure.
- Wire.ReadUtf: malformed modified-UTF-8 bodies are accepted. Java's `readUTF` throws on
  them and the handler drops the message; the model reads them as plain bytes. Strings
  that are equal as characters but differ as bytes are told apart in three places. These
  are `Route` (an overlong spelling of a tag falls to the unknown case), the registry keys,
  and the VoteResponse re-encoding (Java re-encodes a raw zero byte as `C0 80`; the model
  sends the bytes it received).
- **String contents.** String bodies are opaque bytes behind their length prefix. Java's
  modified UTF-8 transcoding between `char`s and bytes is not modelled. A string is
  writable exactly when its encoded body is at most 65535 bytes.
- **Failed reads.** A read that fails leaves the model's cursor where it was. In Java the
  stream may have advanced, but the handler then abandons it, so nothing observable differs.
- **Exceptions.** Every exception inside a handler (`EOFException` and the like) becomes the
  `None` decoding result. The `catch` blocks' log messages are not modelled.
- **Image decoding.** Base64 decoding, `NativeImage.read`, `isBlank` and texture
  registration are summarised by the host's `ImageCheck` verdict: blank, decodable or
  undecodable.
- **Late texture failure.** If `registerTexture` threw after the texture object was created,
  the object would stay open with no background. This case is not modelled.
- **Rendering.** `renderBackground`, title and description centring, and all draw calls
  are left out.
- **Count labels.** Each loop pass at `VoteScreen.java:148` computes a count label and its
  position, then draws the background texture instead of that label. `CountLabels` keeps
  the labels the loop computes; the draw call itself is not modelled.
- **`shouldPause`.** It returns a constant and is not modelled.
- **The tick handler.** It zeroes horizontal velocity and sprinting while the freeze is set.
  It acts on the player entity and is represented only by the freeze flag.
- **Sending and threading.** Fabric registration, `ClientPlayNetworking.send`, the
  `client.execute` hand-off to the render thread and the `RawPluginPayload` codec are left
  out. A reply is returned as the bytes to send.
- **`ConcurrentHashMap`.** `ACTIVE` is a plain map: handlers run one at a time on the client
  thread.
- **Join and the host's lists.**
  - The mod list is sent twice on `JOIN` (lines 79-83); those sends are not modelled beyond
    `WriteModList`.
  - `FabricLoader`'s mod ids and the resource-pack manager's enabled pack names are inputs:
    `Host.modIds` and `Host.packNames`.
  - The window size is an input too, as `Host.width` and `Host.height`.
- **Logging.** Console output and toasts are left out, except the 60-character truncation
  of toast text (`Abbreviate`). The `VoteEnd` toast with its reason is not modelled.
- **Other screens.** A non-vote screen being displayed is not told apart from no screen at
  all: both are `current == null`.
- **`HostValid`.** It bounds the two list sizes by 2^31 so that `List.size()` fits an `int`.
  Java guarantees this and the model assumes it.
- **`ForceClose`.** Its `newCounts` is an `Option` (`null` in Java). The source only ever
  passes a real array; the `null` branch is modelled all the same.
