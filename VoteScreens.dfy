// The vote screen and the client-side state it shares with the mod:
// the registry of open vote screens (VoteScreen.ACTIVE), the movement
// freeze flag (SecurityClientMod.freezeMovement) and the screen the game
// client currently displays (MinecraftClient.currentScreen, reduced to
// "which vote screen, if any").

module VoteScreens {
  import opened Wire
  import opened Protocol

  // -------------------------------------------------------------------------
  // Java int arithmetic
  // -------------------------------------------------------------------------

  /** Java's `int` result of an exact integer: the value modulo 2^32, read as two's complement. */
  function Wrap(x: int): (r: int32)
    ensures (r as int - x) % 0x1_0000_0000 == 0
    ensures -0x8000_0000 <= x < 0x8000_0000 ==> r as int == x
  {
    var m := x % 0x1_0000_0000;
    if m >= 0x8000_0000 then (m - 0x1_0000_0000) as int32 else m as int32
  }

  /** Java's `/` by a positive divisor: the quotient rounds toward zero. */
  function JavaDiv(a: int, d: int): (q: int)
    requires d > 0
    ensures a >= 0 ==> 0 <= a - q * d < d
    ensures a < 0 ==> 0 <= q * d - a < d
  {
    if a >= 0 then a / d else -((-a) / d)
  }

  // -------------------------------------------------------------------------
  // Button layout (VoteScreen.init)
  // -------------------------------------------------------------------------

  const BUTTON_WIDTH: int := 220
  const BUTTON_HEIGHT: int := 20
  const GAP: int := 6
  /** Horizontal distance between a button's right edge and its count. */
  const LABEL_OFFSET: int := 6
  /** Height of the game's font, which the count is centred for. */
  const FONT_HEIGHT: int := 9

  datatype Button = Button(x: int32, y: int32, width: int32, height: int32, optionIndex: int32, text: Str)

  /** `(width - 220) / 2` in Java int arithmetic: the button column is centred in the window. */
  function ButtonX(width: int32): (x: int32)
    ensures BUTTON_WIDTH <= width as int ==>
      0 <= x as int && width as int - 1 <= 2 * x as int + BUTTON_WIDTH <= width as int
    ensures 0 <= width as int < BUTTON_WIDTH ==> x as int == -((BUTTON_WIDTH - width as int) / 2)
  {
    var q := JavaDiv(Wrap(width as int - BUTTON_WIDTH) as int, 2);
    q as int32
  }

  /** `height / 4 + i * 26` in Java int arithmetic: button i sits i rows of 26 pixels below a quarter of the height. */
  function ButtonY(height: int32, i: int32): (y: int32)
    ensures 0 <= height && 0 <= i && height as int / 4 + i as int * (BUTTON_HEIGHT + GAP) < 0x8000_0000 ==>
      y as int == height as int / 4 + i as int * (BUTTON_HEIGHT + GAP)
  {
    Wrap(JavaDiv(height as int, 4) + Wrap(i as int * (BUTTON_HEIGHT + GAP)) as int)
  }

  function Slot(width: int32, height: int32, options: seq<Str>, i: nat): Button
    requires i < |options| < 0x8000_0000
  {
    Button(ButtonX(width), ButtonY(height, i as int32), BUTTON_WIDTH as int32, BUTTON_HEIGHT as int32,
           i as int32, options[i])
  }

  /** The buttons one `init` adds for a window of the given size: one per option, in order. */
  function Layout(width: int32, height: int32, options: seq<Str>): (r: seq<Button>)
    requires |options| < 0x8000_0000
    ensures |r| == |options|
    ensures forall i :: 0 <= i < |r| ==>
      r[i].optionIndex as int == i && r[i].text == options[i] && r[i].x == ButtonX(width)
    ensures forall i :: 0 <= i < |r| ==>
      r[i].y == ButtonY(height, i as int32) &&
      r[i].width as int == BUTTON_WIDTH && r[i].height as int == BUTTON_HEIGHT
  {
    seq(|options|, i requires 0 <= i < |options| => Slot(width, height, options, i))
  }

  /** In a window whose height keeps the arithmetic in range, each button is 26 pixels below
      the previous one, so consecutive buttons never overlap and leave a 6-pixel gap. */
  lemma ButtonsStacked(width: int32, height: int32, options: seq<Str>, i: nat)
    requires |options| < 0x8000_0000 && i + 1 < |options|
    requires 0 <= height && height as int / 4 + |options| * (BUTTON_HEIGHT + GAP) < 0x8000_0000
    ensures Layout(width, height, options)[i + 1].y as int
         == Layout(width, height, options)[i].y as int + BUTTON_HEIGHT + GAP
    ensures Layout(width, height, options)[i].y as int + Layout(width, height, options)[i].height as int
          < Layout(width, height, options)[i + 1].y as int
  {
    var r := Layout(width, height, options);
    assert r[i] == Slot(width, height, options, i);
    assert r[i + 1] == Slot(width, height, options, i + 1);
  }

  lemma LayoutStep(width: int32, height: int32, options: seq<Str>, i: nat, before: seq<Button>)
    requires i < |options| < 0x8000_0000
    ensures before + Layout(width, height, options)[..i + 1]
         == (before + Layout(width, height, options)[..i]) + [Slot(width, height, options, i)]
  {
    var layout := Layout(width, height, options);
    assert layout[..i + 1] == layout[..i] + [layout[i]];
  }

  // -------------------------------------------------------------------------
  // The vote counts drawn beside the buttons (VoteScreen.render)
  // -------------------------------------------------------------------------

  datatype CountLabel = CountLabel(x: int32, y: int32, count: int32)

  /** The count of a button is drawn 6 pixels right of it and centred for a 9-pixel font. */
  function LabelFor(b: Button, count: int32): (l: CountLabel)
    ensures l.count == count
    ensures b.x as int + b.width as int + LABEL_OFFSET < 0x8000_0000 && 0 <= b.width ==>
      l.x as int == b.x as int + b.width as int + LABEL_OFFSET
    ensures b.height as int == BUTTON_HEIGHT && b.y as int + 5 < 0x8000_0000 ==>
      l.y as int == b.y as int + (BUTTON_HEIGHT - FONT_HEIGHT) / 2
  {
    CountLabel(Wrap(Wrap(b.x as int + b.width as int) as int + LABEL_OFFSET),
               Wrap(b.y as int + JavaDiv(Wrap(b.height as int - FONT_HEIGHT) as int, 2)),
               count)
  }

  function Zeros(n: nat): (r: seq<int32>)
    ensures |r| == n && forall i :: 0 <= i < n ==> r[i] == 0
  {
    seq(n, _ => 0)
  }

  function Opt(s: VoteScreen?): set<VoteScreen> {
    if s == null then {} else {s}
  }

  /** What the host found when it looked at an image string: blank, decodable, or not. */
  datatype ImageCheck = Blank | Decoded | Undecodable

  // -------------------------------------------------------------------------
  // VoteScreen
  // -------------------------------------------------------------------------

  class VoteScreen {
    const voteId: Str
    const titleText: Str
    const description: Str
    const options: seq<Str>
    const freezeMovement: bool
    const imageData: Option<Str>
    const durationSec: int32
    /** `bgTex != null`: a background texture is registered for drawing. */
    var background: bool
    /** `bgTextureObj != null`: a texture is held open. */
    var textureOpen: bool
    var buttons: seq<Button>
    var counts: seq<int32>

    /** One count per option, and every button sends the index of an existing option. */
    ghost predicate Valid()
      reads this
    {
      |options| < 0x8000_0000 && |counts| == |options| &&
      forall i :: 0 <= i < |buttons| ==> 0 <= buttons[i].optionIndex as int < |options|
    }

    /** A new screen starts with zero counts and registers itself under its vote id,
        replacing any screen registered under that id. */
    constructor (st: ClientState, voteId: Str, title: Str, description: Str, options: seq<Str>,
                 freezeMovement: bool, imageData: Option<Str>, durationSec: int32)
      requires |options| < 0x8000_0000
      modifies st`active
      ensures Valid()
      ensures this.voteId == voteId && titleText == title && this.description == description
      ensures this.options == options && this.freezeMovement == freezeMovement
      ensures this.imageData == imageData && this.durationSec == durationSec
      ensures buttons == [] && counts == Zeros(|options|) && !background && !textureOpen
      ensures st.active == old(st.active)[voteId := this]
    {
      this.voteId := voteId;
      titleText := title;
      this.description := description;
      this.options := options;
      this.freezeMovement := freezeMovement;
      this.imageData := imageData;
      this.durationSec := durationSec;
      background := false;
      textureOpen := false;
      buttons := [];
      counts := Zeros(|options|);
      new;
      st.active := st.active[voteId := this];
    }

    /** `init`: appends one button per option (the list is never cleared, so a second
        `init` after a resize appends a second set), then loads the background image. */
    method Init(width: int32, height: int32, image: ImageCheck)
      requires Valid()
      modifies this`buttons, this`background, this`textureOpen
      ensures Valid()
      ensures buttons == old(buttons) + Layout(width, height, options)
      ensures imageData.None? || image == Blank ==>
        background == old(background) && textureOpen == old(textureOpen)
      ensures imageData.Some? && image == Decoded ==> background && textureOpen
      ensures imageData.Some? && image == Undecodable ==> !background && textureOpen == old(textureOpen)
    {
      ghost var layout := Layout(width, height, options);
      ghost var before := buttons;
      for i := 0 to |options|
        invariant buttons == before + layout[..i]
        invariant background == old(background) && textureOpen == old(textureOpen)
      {
        LayoutStep(width, height, options, i, before);
        buttons := buttons + [Slot(width, height, options, i)];
      }
      assert layout[..|options|] == layout;
      LoadBackground(image);
    }

    /** The image part of `init`: a blank or absent image changes nothing, a decodable one
        becomes the background, an undecodable one leaves no background. */
    method LoadBackground(image: ImageCheck)
      modifies this`background, this`textureOpen
      ensures imageData.None? || image == Blank ==>
        background == old(background) && textureOpen == old(textureOpen)
      ensures imageData.Some? && image == Decoded ==> background && textureOpen
      ensures imageData.Some? && image == Undecodable ==> !background && textureOpen == old(textureOpen)
    {
      if imageData.Some? && image != Blank {
        if image == Decoded {
          textureOpen := true;
          background := true;
        } else {
          background := false;
        }
      }
    }

    /** `removed`: deregisters the vote id, lifts the freeze and releases the texture. */
    method Removed(st: ClientState)
      modifies st`active, st`freeze, this`textureOpen
      ensures st.active == old(st.active) - {voteId} && !st.freeze && !textureOpen
    {
      st.active := st.active - {voteId};
      st.Unfreeze();
      textureOpen := false;
    }

    /** The loop of `render` that places the counts: one per button that has a count. */
    method CountLabels() returns (labels: seq<CountLabel>)
      ensures |labels| == if |buttons| < |counts| then |buttons| else |counts|
      ensures forall i :: 0 <= i < |labels| ==> labels[i] == LabelFor(buttons[i], counts[i])
    {
      labels := [];
      var i := 0;
      while i < |buttons| && i < |counts|
        invariant i <= |buttons| && i <= |counts| && |labels| == i
        invariant forall j :: 0 <= j < i ==> labels[j] == LabelFor(buttons[j], counts[j])
      {
        labels := labels + [LabelFor(buttons[i], counts[i])];
        i := i + 1;
      }
    }

    /** A click on button k: the response names the button's option, then the screen closes. */
    method Press(st: ClientState, k: nat) returns (sent: Option<seq<byte>>)
      requires st.Valid() && st.current == this && k < |buttons|
      modifies st, this`textureOpen
      ensures sent == VoteResponseMessage(voteId, buttons[k].optionIndex)
      ensures 0 <= buttons[k].optionIndex as int < |options|
      ensures st.Valid() && st.current == null && st.active == old(st.active) - {voteId}
      ensures !st.freeze && !textureOpen
    {
      sent := WriteVoteResponse(voteId, buttons[k].optionIndex);
      st.ClearScreen();
    }

    /** `updateStats`: the registered screen takes the new counts when there is one per option. */
    static method UpdateStats(st: ClientState, voteId: Str, newCounts: seq<int32>)
      requires st.Valid()
      modifies st.Shown()`counts
      ensures st.Valid()
      ensures st.current != null ==>
        st.current.counts == if voteId in st.active && |newCounts| == |old(st.current.counts)|
                             then newCounts else old(st.current.counts)
    {
      if voteId in st.active {
        var screen := st.active[voteId];
        if |newCounts| == |screen.counts| {
          screen.counts := newCounts;
        }
      }
    }

    /** `forceClose`: the registered screen takes the final counts when there is one per
        option, then closes; an unknown vote id changes nothing. */
    static method ForceClose(st: ClientState, voteId: Str, newCounts: Option<seq<int32>>)
      requires st.Valid()
      modifies st, st.Shown()`counts, st.Shown()`textureOpen
      ensures st.Valid()
      ensures voteId !in old(st.active) ==> unchanged(st) && (old(st.current) != null ==> unchanged(old(st.current)))
      ensures voteId in old(st.active) ==>
        old(st.current) != null && old(st.current).voteId == voteId &&
        st.current == null && st.active == old(st.active) - {voteId} && !st.freeze &&
        !old(st.current).textureOpen &&
        old(st.current).counts == if newCounts.Some? && |newCounts.value| == |old(st.current.counts)|
                                  then newCounts.value else old(st.current.counts)
    {
      if voteId in st.active {
        var screen := st.active[voteId];
        if newCounts.Some? && |newCounts.value| == |screen.counts| {
          screen.counts := newCounts.value;
        }
        st.ClearScreen();
      }
    }
  }

  // -------------------------------------------------------------------------
  // The state shared by the mod and its screens
  // -------------------------------------------------------------------------

  /** The client state at one moment: the registry, the freeze flag, the displayed screen and
      that screen's changing fields (false and empty when none is displayed). */
  datatype Snapshot = Snapshot(active: map<Str, VoteScreen>, freeze: bool, current: VoteScreen?,
                               background: bool, textureOpen: bool, buttons: seq<Button>, counts: seq<int32>)

  class ClientState {
    /** VoteScreen.ACTIVE: the open vote screens by vote id. */
    var active: map<Str, VoteScreen>
    /** SecurityClientMod.freezeMovement. */
    var freeze: bool
    /** The vote screen the game displays; null for none (or a screen of another kind). */
    var current: VoteScreen?

    constructor ()
      ensures Valid() && active == map[] && !freeze && current == null
    {
      active := map[];
      freeze := false;
      current := null;
    }

    function Shown(): set<VoteScreen>
      reads this
    {
      Opt(current)
    }

    ghost function Snap(): Snapshot
      reads this, Shown()
    {
      if current == null then Snapshot(active, freeze, null, false, false, [], [])
      else Snapshot(active, freeze, current, current.background, current.textureOpen, current.buttons, current.counts)
    }

    /** Every registered screen is registered under its own id and is either the displayed
        one or `opening`, the screen about to be displayed. */
    ghost predicate Entries(opening: VoteScreen?)
      reads this
    {
      forall id :: id in active ==> active[id].voteId == id && (active[id] == current || active[id] == opening)
    }

    /** Movement is frozen only while a screen that asked for it is displayed (or opening). */
    ghost predicate FreezeOwned(opening: VoteScreen?)
      reads this
    {
      freeze ==> (current != null && current.freezeMovement) || (opening != null && opening.freezeMovement)
    }

    ghost predicate ValidWith(opening: VoteScreen?)
      reads this, Shown(), Opt(opening)
    {
      Entries(opening) && FreezeOwned(opening) &&
      (current != null ==> current.Valid()) && (opening != null ==> opening.Valid())
    }

    /** Between messages: the registry holds at most the displayed screen, and a freeze
        belongs to the displayed screen. */
    ghost predicate Valid()
      reads this, Shown()
    {
      ValidWith(null)
    }

    method FreezeMovement()
      modifies this`freeze
      ensures freeze
    {
      freeze := true;
    }

    method Unfreeze()
      modifies this`freeze
      ensures !freeze
    {
      freeze := false;
    }

    /** The first step of `MinecraftClient.setScreen`: the outgoing screen's `removed`. */
    method Displace()
      modifies this`active, this`freeze, Shown()`textureOpen
      ensures old(current) == null ==> active == old(active) && freeze == old(freeze)
      ensures old(current) != null ==>
        active == old(active) - {old(current).voteId} && !freeze && !old(current).textureOpen
    {
      if current != null {
        current.Removed(this);
      }
    }

    /** `MinecraftClient.setScreen(null)`. */
    method ClearScreen()
      requires Valid()
      modifies this, Shown()`textureOpen
      ensures Valid() && current == null
      ensures old(current) == null ==> active == old(active) && freeze == old(freeze)
      ensures old(current) != null ==>
        active == old(active) - {old(current).voteId} && !freeze && !old(current).textureOpen
    {
      Displace();
      current := null;
    }

    /** `MinecraftClient.setScreen(s)` for a vote screen not yet displayed: the outgoing
        screen is removed, then `s` is displayed and initialised for the window. */
    method OpenScreen(s: VoteScreen, width: int32, height: int32, image: ImageCheck)
      requires ValidWith(s) && s != current
      modifies this, Shown()`textureOpen, s`buttons, s`background, s`textureOpen
      ensures Valid() && current == s
      ensures old(current) == null ==> active == old(active) && freeze == old(freeze)
      ensures old(current) != null ==>
        active == old(active) - {old(current).voteId} && !freeze && !old(current).textureOpen
      ensures s.buttons == old(s.buttons) + Layout(width, height, s.options)
      ensures s.imageData.None? || image == Blank ==>
        s.background == old(s.background) && s.textureOpen == old(s.textureOpen)
      ensures s.imageData.Some? && image == Decoded ==> s.background && s.textureOpen
      ensures s.imageData.Some? && image == Undecodable ==>
        !s.background && s.textureOpen == old(s.textureOpen)
    {
      Displace();
      current := s;
      s.Init(width, height, image);
    }
  }
}
