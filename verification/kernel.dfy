/** The engine (`Engine` in Sources/Kernel/Kernel.cpp): its running flag through
    `Initialize`, and `Tick`, which pumps the window's messages and then forwards the
    buffered mouse and keyboard events to the HTML view manager. The window, renderer
    and view manager are opaque: their outcomes are parameters, and what the view
    manager receives is returned as a sequence. */
module Kernel {
  import opened Input

  /** One call into the view manager: `FireMouseEvent` or `FireKeyboardEvent`. */
  datatype Fired = FiredMouse(mouseEvent: MouseEvent) | FiredKey(keyEvent: KeyboardEvent)

  datatype Engine = Engine(running: bool, mouse: Mouse, keyboard: Keyboard)

  /** A freshly constructed engine is not running. */
  const NewEngine: Engine := Engine(false, NewMouse, NewKeyboard)

  /** The outcome of each step `Initialize` performs, in order. */
  datatype Outcomes = Outcomes(window: bool, renderer: bool, viewManager: bool, view: bool)

  /** `Initialize`: false without touching the flag when the window fails; after that
      the engine is marked running, and the later steps decide only the result. */
  function Initialize(e: Engine, o: Outcomes): (r: (bool, Engine))
    ensures r.0 <==> o.window && o.renderer && o.viewManager && o.view
    ensures !o.window ==> r.1 == e
    ensures o.window ==> r.1 == e.(running := true)
  {
    if !o.window then (false, e)
    else
      var e1 := e.(running := true);
      (o.window && o.renderer && o.viewManager && o.view, e1)
  }

  /** A successful start leaves the engine running; a window failure leaves a new
      engine stopped; a later failure reports false although the flag is already up,
      which the caller never sees because it enters its loop only on true. */
  lemma InitializeRunning(o: Outcomes)
    ensures Initialize(NewEngine, o).0 ==> Initialize(NewEngine, o).1.running
    ensures !o.window ==> !Initialize(NewEngine, o).1.running
    ensures o.window && !o.renderer ==> !Initialize(NewEngine, o).0 && Initialize(NewEngine, o).1.running
  {
  }

  /** The calls `Tick` makes for a run of buffered mouse events: one per valid event,
      in buffer order. */
  function ForwardedMouse(s: seq<MouseEvent>): (r: seq<Fired>)
    ensures |r| <= |s|
    ensures forall i :: 0 <= i < |r| ==> r[i].FiredMouse? && r[i].mouseEvent.IsValid()
    ensures (forall i :: 0 <= i < |s| ==> s[i].IsValid()) ==>
      |r| == |s| && forall i :: 0 <= i < |s| ==> r[i] == FiredMouse(s[i])
    ensures (forall i :: 0 <= i < |s| ==> !s[i].IsValid()) ==> r == []
  {
    if |s| == 0 then []
    else (if s[0].IsValid() then [FiredMouse(s[0])] else []) + ForwardedMouse(s[1..])
  }

  /** The same for keyboard events. */
  function ForwardedKeys(s: seq<KeyboardEvent>): (r: seq<Fired>)
    ensures |r| <= |s|
    ensures forall i :: 0 <= i < |r| ==> r[i].FiredKey? && r[i].keyEvent.IsValid()
    ensures (forall i :: 0 <= i < |s| ==> s[i].IsValid()) ==>
      |r| == |s| && forall i :: 0 <= i < |s| ==> r[i] == FiredKey(s[i])
    ensures (forall i :: 0 <= i < |s| ==> !s[i].IsValid()) ==> r == []
  {
    if |s| == 0 then []
    else (if s[0].IsValid() then [FiredKey(s[0])] else []) + ForwardedKeys(s[1..])
  }

  /** Forwarding keeps buffer order across any split of the buffer, so events that
      arrive across two ticks come out as if read in one. */
  lemma {:induction false} ForwardedMouseAppend(a: seq<MouseEvent>, b: seq<MouseEvent>)
    ensures ForwardedMouse(a + b) == ForwardedMouse(a) + ForwardedMouse(b)
  {
    if |a| > 0 {
      assert (a + b)[1..] == a[1..] + b;
      ForwardedMouseAppend(a[1..], b);
    } else {
      assert a + b == b;
    }
  }

  lemma {:induction false} ForwardedKeysAppend(a: seq<KeyboardEvent>, b: seq<KeyboardEvent>)
    ensures ForwardedKeys(a + b) == ForwardedKeys(a) + ForwardedKeys(b)
  {
    if |a| > 0 {
      assert (a + b)[1..] == a[1..] + b;
      ForwardedKeysAppend(a[1..], b);
    } else {
      assert a + b == b;
    }
  }

  /** The mouse half of `Tick`: read until the buffer is empty, forwarding the valid
      events. */
  method DrainMouse(m: Mouse) returns (r: Mouse, fired: seq<Fired>)
    ensures r == m.(buffer := []) && fired == ForwardedMouse(m.buffer)
  {
    r := m;
    fired := [];
    while |r.buffer| > 0
      invariant r == m.(buffer := r.buffer)
      invariant fired + ForwardedMouse(r.buffer) == ForwardedMouse(m.buffer)
      decreases |r.buffer|
    {
      var (ev, rest) := ReadMouseEvent(r);
      assert ForwardedMouse(r.buffer) == (if ev.IsValid() then [FiredMouse(ev)] else []) + ForwardedMouse(rest.buffer);
      if ev.IsValid() {
        fired := fired + [FiredMouse(ev)];
      }
      r := rest;
    }
  }

  /** The keyboard half of `Tick`. */
  method DrainKeyboard(kb: Keyboard) returns (r: Keyboard, fired: seq<Fired>)
    ensures r == kb.(buffer := []) && fired == ForwardedKeys(kb.buffer)
  {
    r := kb;
    fired := [];
    while |r.buffer| > 0
      invariant r == kb.(buffer := r.buffer)
      invariant fired + ForwardedKeys(r.buffer) == ForwardedKeys(kb.buffer)
      decreases |r.buffer|
    {
      var (ev, rest) := ReadKeyboardEvent(r);
      assert ForwardedKeys(r.buffer) == (if ev.IsValid() then [FiredKey(ev)] else []) + ForwardedKeys(rest.buffer);
      if ev.IsValid() {
        fired := fired + [FiredKey(ev)];
      }
      r := rest;
    }
  }

  /** `Tick`: when the message pump reports a quit the engine stops and no event is
      read. Otherwise both buffers are drained, mouse first, and only valid events are
      forwarded, in order. */
  method Tick(e: Engine, pumpOk: bool) returns (r: Engine, fired: seq<Fired>)
    ensures !pumpOk ==> r == e.(running := false) && fired == []
    ensures pumpOk ==> r == e.(mouse := e.mouse.(buffer := []), keyboard := e.keyboard.(buffer := []))
    ensures pumpOk ==> fired == ForwardedMouse(e.mouse.buffer) + ForwardedKeys(e.keyboard.buffer)
  {
    if !pumpOk {
      return e.(running := false), [];
    }
    var mouse, fromMouse := DrainMouse(e.mouse);
    var keyboard, fromKeys := DrainKeyboard(e.keyboard);
    r := e.(mouse := mouse, keyboard := keyboard);
    fired := fromMouse + fromKeys;
  }

  /** The keyboard after a run of messages. */
  function KeyboardAfter(kb: Keyboard, msgs: seq<(nat, nat, int)>): (r: Keyboard)
    ensures |r.buffer| == |kb.buffer| + |msgs|
    ensures r.buffer[..|kb.buffer|] == kb.buffer
    ensures forall i :: 0 <= i < |msgs| ==>
      r.buffer[|kb.buffer| + i] == DecodeKey(msgs[i].0, msgs[i].1, msgs[i].2)
    decreases |msgs|
  {
    if |msgs| == 0 then kb
    else KeyboardAfter(OnKeyboardMessage(kb, msgs[0].0, msgs[0].1, msgs[0].2), msgs[1..])
  }

  /** Between ticks every recognised key message reaches the view manager once, in
      the order it arrived. */
  lemma KeyMessagesForwardedInOrder(kb: Keyboard, msgs: seq<(nat, nat, int)>)
    requires kb.buffer == []
    requires forall i :: 0 <= i < |msgs| ==> msgs[i].0 in {WM_KEYDOWN, WM_KEYUP, WM_SYSKEYDOWN, WM_SYSKEYUP, WM_CHAR}
    ensures var f := ForwardedKeys(KeyboardAfter(kb, msgs).buffer);
      |f| == |msgs| && forall i :: 0 <= i < |msgs| ==> f[i] == FiredKey(DecodeKey(msgs[i].0, msgs[i].1, msgs[i].2))
  {
    var b := KeyboardAfter(kb, msgs).buffer;
    assert forall i :: 0 <= i < |b| ==> b[i] == DecodeKey(msgs[i].0, msgs[i].1, msgs[i].2);
  }

  /** A message the decoders do not recognise is buffered but never forwarded: the
      next tick fires exactly what it would have fired without it. */
  lemma UnknownMessagesDropped(e: Engine, msg: nat, w: nat, l: int)
    requires msg !in {WM_KEYDOWN, WM_KEYUP, WM_SYSKEYDOWN, WM_SYSKEYUP, WM_CHAR}
    requires msg !in {WM_MOUSEMOVE, WM_LBUTTONDOWN, WM_RBUTTONDOWN, WM_MBUTTONDOWN,
                      WM_LBUTTONUP, WM_RBUTTONUP, WM_MBUTTONUP}
    ensures ForwardedKeys(OnKeyboardMessage(e.keyboard, msg, w, l).buffer) == ForwardedKeys(e.keyboard.buffer)
    ensures ForwardedMouse(OnMouseMessage(e.mouse, msg, l).buffer) == ForwardedMouse(e.mouse.buffer)
  {
    ForwardedKeysAppend(e.keyboard.buffer, [DecodeKey(msg, w, l)]);
    ForwardedMouseAppend(e.mouse.buffer, [DecodeMouse(msg, l)]);
  }
}
