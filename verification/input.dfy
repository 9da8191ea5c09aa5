/** The kernel window's input (`KeyboardEvent`, `MouseEvent`, `Keyboard`, `Mouse`):
    decoding a Win32 message into an event, the key-state table, the last pressed
    mouse button, and the FIFO event buffers the engine drains each tick. Message
    parameters are integers; `LPARAM` may be negative and is read in two's
    complement. */
module Input {

  // ---------------------------------------------------------------------------
  // Win32 message numbers (WinUser.h)

  const WM_KEYDOWN: nat := 0x0100
  const WM_KEYUP: nat := 0x0101
  const WM_CHAR: nat := 0x0102
  const WM_SYSKEYDOWN: nat := 0x0104
  const WM_SYSKEYUP: nat := 0x0105
  const WM_MOUSEMOVE: nat := 0x0200
  const WM_LBUTTONDOWN: nat := 0x0201
  const WM_LBUTTONUP: nat := 0x0202
  const WM_RBUTTONDOWN: nat := 0x0204
  const WM_RBUTTONUP: nat := 0x0205
  const WM_MBUTTONDOWN: nat := 0x0207
  const WM_MBUTTONUP: nat := 0x0208

  /** Bit 30 of a two's-complement integer: the previous-key-state flag of a key
      message's `lParam`. */
  predicate Bit30(x: int)
  {
    (x / 0x4000_0000) % 2 == 1
  }

  /** `LOWORD` and `HIWORD`: bits 0-15 and 16-31, as unsigned values. */
  function LoWord(x: int): (r: nat)
    ensures r < 0x1_0000
  {
    x % 0x1_0000
  }

  function HiWord(x: int): (r: nat)
    ensures r < 0x1_0000
  {
    (x / 0x1_0000) % 0x1_0000
  }

  /** Packing a point the way Windows does gives it back. */
  lemma WordsRoundTrip(x: nat, y: nat)
    requires x < 0x1_0000 && y < 0x1_0000
    ensures LoWord(y * 0x1_0000 + x) == x && HiWord(y * 0x1_0000 + x) == y
  {
  }

  // ---------------------------------------------------------------------------
  // Keyboard events

  datatype KeyType = KeyInvalid | KeyDown | KeyUp | Char

  datatype KeyboardEvent = KeyboardEvent(kind: KeyType, key: nat, autoRepeat: bool, systemKey: bool)
  {
    /** `IsValid()`. */
    predicate IsValid() { kind != KeyInvalid }
  }

  /** The default constructor: invalid, key 0, no repeat. */
  const NoKeyboardEvent: KeyboardEvent := KeyboardEvent(KeyInvalid, 0, false, false)

  /** The message constructor: the key is the low byte of `wParam`; down and character
      messages take their auto-repeat flag from bit 30 of `lParam`; the `SYS` variants
      mark a system key; any other message is invalid. */
  function DecodeKey(msg: nat, w: nat, l: int): (e: KeyboardEvent)
    ensures e.key == w % 256 && e.key < 256
    ensures e.IsValid() <==> msg in {WM_KEYDOWN, WM_KEYUP, WM_SYSKEYDOWN, WM_SYSKEYUP, WM_CHAR}
    ensures e.kind == KeyDown <==> msg == WM_KEYDOWN || msg == WM_SYSKEYDOWN
    ensures e.kind == KeyUp <==> msg == WM_KEYUP || msg == WM_SYSKEYUP
    ensures e.kind == Char <==> msg == WM_CHAR
    ensures e.systemKey <==> msg == WM_SYSKEYDOWN || msg == WM_SYSKEYUP
    ensures e.autoRepeat <==> (e.kind == KeyDown || e.kind == Char) && Bit30(l)
  {
    var key := w % 256;
    var repeat := Bit30(l);
    if msg == WM_KEYDOWN then KeyboardEvent(KeyDown, key, repeat, false)
    else if msg == WM_KEYUP then KeyboardEvent(KeyUp, key, false, false)
    else if msg == WM_SYSKEYDOWN then KeyboardEvent(KeyDown, key, repeat, true)
    else if msg == WM_SYSKEYUP then KeyboardEvent(KeyUp, key, false, true)
    else if msg == WM_CHAR then KeyboardEvent(Char, key, repeat, false)
    else KeyboardEvent(KeyInvalid, key, false, false)
  }

  /** A held key's repeat message is flagged, its first press is not; a release never
      is, whatever `lParam` says. */
  lemma AutoRepeatFromBit30(w: nat)
    ensures DecodeKey(WM_KEYDOWN, w, 0x4000_0000).autoRepeat
    ensures !DecodeKey(WM_KEYDOWN, w, 1).autoRepeat
    ensures !DecodeKey(WM_KEYUP, w, 0x4000_0000).autoRepeat
    ensures DecodeKey(WM_CHAR, w, -1).autoRepeat
  {
  }

  /** `Keyboard`: the keys held down (`key_states_`) and the event buffer. */
  datatype Keyboard = Keyboard(pressed: set<nat>, buffer: seq<KeyboardEvent>)

  const NewKeyboard: Keyboard := Keyboard({}, [])

  /** `_OnWindowsKeyboardMessage`: a key-down holds the key, a key-up releases it, a
      character changes nothing; every event, invalid ones too, is buffered. */
  function OnKeyboardMessage(kb: Keyboard, msg: nat, w: nat, l: int): (r: Keyboard)
    ensures r.buffer == kb.buffer + [DecodeKey(msg, w, l)]
    ensures DecodeKey(msg, w, l).kind == KeyDown ==> r.pressed == kb.pressed + {w % 256}
    ensures DecodeKey(msg, w, l).kind == KeyUp ==> r.pressed == kb.pressed - {w % 256}
    ensures DecodeKey(msg, w, l).kind in {Char, KeyInvalid} ==> r.pressed == kb.pressed
  {
    var e := DecodeKey(msg, w, l);
    var pressed := match e.kind
      case KeyDown => kb.pressed + {e.key}
      case KeyUp => kb.pressed - {e.key}
      case _ => kb.pressed;
    Keyboard(pressed, kb.buffer + [e])
  }

  /** `KeyIsPressed`. */
  predicate KeyIsPressed(kb: Keyboard, key: nat)
  {
    key in kb.pressed
  }

  /** `ReadEvent`: the oldest buffered event, which leaves the buffer; the default
      invalid event from an empty buffer. */
  function ReadKeyboardEvent(kb: Keyboard): (r: (KeyboardEvent, Keyboard))
    ensures |kb.buffer| == 0 ==> r == (NoKeyboardEvent, kb)
    ensures |kb.buffer| > 0 ==> r.0 == kb.buffer[0] && [r.0] + r.1.buffer == kb.buffer
    ensures r.1.pressed == kb.pressed
  {
    if |kb.buffer| == 0 then (NoKeyboardEvent, kb)
    else (kb.buffer[0], kb.(buffer := kb.buffer[1..]))
  }

  /** Messages come out in the order they went in: after two messages into an empty
      buffer, the first read gives the first, the second read the second, and a third
      read the default event. A press and its release leave the key up. */
  lemma KeyboardFifo(m1: nat, w1: nat, l1: int, m2: nat, w2: nat, l2: int)
    ensures var kb := OnKeyboardMessage(OnKeyboardMessage(NewKeyboard, m1, w1, l1), m2, w2, l2);
      var (e1, kb1) := ReadKeyboardEvent(kb);
      var (e2, kb2) := ReadKeyboardEvent(kb1);
      e1 == DecodeKey(m1, w1, l1) && e2 == DecodeKey(m2, w2, l2)
      && ReadKeyboardEvent(kb2).0 == NoKeyboardEvent && kb2.buffer == []
    ensures !KeyIsPressed(OnKeyboardMessage(OnKeyboardMessage(NewKeyboard, WM_KEYDOWN, w1, l1), WM_KEYUP, w1, l2), w1 % 256)
  {
  }

  // ---------------------------------------------------------------------------
  // Mouse events

  datatype MouseType = MouseMove | MouseDown | MouseUp | MouseMoveRaw | UninitializedType

  datatype Button = NoButton | Left | Middle | Right | UninitializedButton

  datatype MouseEvent = MouseEvent(kind: MouseType, button: Button, x: int, y: int)
  {
    /** `IsValid()`: both the type and the button were set. */
    predicate IsValid() { kind != UninitializedType && button != UninitializedButton }
  }

  /** The default constructor: invalid, at (0, 0). */
  const NoMouseEvent: MouseEvent := MouseEvent(UninitializedType, UninitializedButton, 0, 0)

  /** The message constructor: the position is the low and high words of `lParam`;
      moves carry no button, the button messages their button; any other message
      leaves the type and button uninitialised. */
  function DecodeMouse(msg: nat, l: int): (e: MouseEvent)
    ensures e.x == LoWord(l) && e.y == HiWord(l)
    ensures e.IsValid() <==> msg in {WM_MOUSEMOVE, WM_LBUTTONDOWN, WM_RBUTTONDOWN, WM_MBUTTONDOWN,
                                     WM_LBUTTONUP, WM_RBUTTONUP, WM_MBUTTONUP}
    ensures e.kind == MouseDown <==> msg in {WM_LBUTTONDOWN, WM_RBUTTONDOWN, WM_MBUTTONDOWN}
    ensures e.kind == MouseUp <==> msg in {WM_LBUTTONUP, WM_RBUTTONUP, WM_MBUTTONUP}
    ensures e.kind == MouseMove <==> msg == WM_MOUSEMOVE
    ensures e.kind == MouseMove ==> e.button == NoButton
    ensures e.button == Left <==> msg == WM_LBUTTONDOWN || msg == WM_LBUTTONUP
    ensures e.button == Right <==> msg == WM_RBUTTONDOWN || msg == WM_RBUTTONUP
    ensures e.button == Middle <==> msg == WM_MBUTTONDOWN || msg == WM_MBUTTONUP
  {
    var x := LoWord(l);
    var y := HiWord(l);
    if msg == WM_MOUSEMOVE then MouseEvent(MouseMove, NoButton, x, y)
    else if msg == WM_LBUTTONDOWN then MouseEvent(MouseDown, Left, x, y)
    else if msg == WM_RBUTTONDOWN then MouseEvent(MouseDown, Right, x, y)
    else if msg == WM_MBUTTONDOWN then MouseEvent(MouseDown, Middle, x, y)
    else if msg == WM_LBUTTONUP then MouseEvent(MouseUp, Left, x, y)
    else if msg == WM_RBUTTONUP then MouseEvent(MouseUp, Right, x, y)
    else if msg == WM_MBUTTONUP then MouseEvent(MouseUp, Middle, x, y)
    else MouseEvent(UninitializedType, UninitializedButton, x, y)
  }

  /** `Mouse`: the last pressed button, the event buffer, and the stored position. */
  datatype Mouse = Mouse(lastPressed: Button, buffer: seq<MouseEvent>, x: int, y: int)

  const NewMouse: Mouse := Mouse(NoButton, [], 0, 0)

  /** `_OnWindowsMouseMessage`: a press remembers its button, a release forgets it, a
      move is stamped with the remembered button; every event is buffered. The stored
      position is never touched. */
  function OnMouseMessage(m: Mouse, msg: nat, l: int): (r: Mouse)
    ensures var e := DecodeMouse(msg, l);
      (e.kind == MouseDown ==> r.lastPressed == e.button)
      && (e.kind == MouseUp ==> r.lastPressed == NoButton)
      && (e.kind !in {MouseDown, MouseUp} ==> r.lastPressed == m.lastPressed)
      && (e.kind == MouseMove ==> r.buffer == m.buffer + [e.(button := m.lastPressed)])
      && (e.kind != MouseMove ==> r.buffer == m.buffer + [e])
    ensures r.x == m.x && r.y == m.y
  {
    var e := DecodeMouse(msg, l);
    match e.kind
    case MouseDown => m.(lastPressed := e.button, buffer := m.buffer + [e])
    case MouseUp => m.(lastPressed := NoButton, buffer := m.buffer + [e])
    case MouseMove => m.(buffer := m.buffer + [e.(button := m.lastPressed)])
    case _ => m.(buffer := m.buffer + [e])
  }

  /** `ReadEvent`: the oldest buffered event, or the default invalid one. */
  function ReadMouseEvent(m: Mouse): (r: (MouseEvent, Mouse))
    ensures |m.buffer| == 0 ==> r == (NoMouseEvent, m)
    ensures |m.buffer| > 0 ==> r.0 == m.buffer[0] && [r.0] + r.1.buffer == m.buffer
    ensures r.1.lastPressed == m.lastPressed && r.1.x == m.x && r.1.y == m.y
  {
    if |m.buffer| == 0 then (NoMouseEvent, m)
    else (m.buffer[0], m.(buffer := m.buffer[1..]))
  }

  /** A drag: a move after a left press carries the left button, a move after the
      release carries none, and the events come out in order. */
  lemma DragStampsButton(l1: int, l2: int, l3: int)
    ensures var m := OnMouseMessage(OnMouseMessage(OnMouseMessage(NewMouse, WM_LBUTTONDOWN, l1), WM_MOUSEMOVE, l2), WM_LBUTTONUP, l3);
      var m2 := OnMouseMessage(m, WM_MOUSEMOVE, l3);
      |m2.buffer| == 4 && m2.buffer[0].kind == MouseDown && m2.buffer[1].button == Left
      && m2.buffer[2].kind == MouseUp && m2.buffer[3].button == NoButton
      && ReadMouseEvent(m2).0 == DecodeMouse(WM_LBUTTONDOWN, l1)
  {
  }

  /** A run of messages in order. The stored position never moves, so `GetPos` stays
      where it started, and each message buffers exactly one event. */
  function MouseAfter(m: Mouse, msgs: seq<(nat, int)>): (r: Mouse)
    ensures r.x == m.x && r.y == m.y
    ensures |r.buffer| == |m.buffer| + |msgs|
    decreases |msgs|
  {
    if |msgs| == 0 then m else MouseAfter(OnMouseMessage(m, msgs[0].0, msgs[0].1), msgs[1..])
  }
}
