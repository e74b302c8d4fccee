/** The toolbar's tool table and the keyboard-shortcut dispatch over it. */
module Tools {
  import opened Wrappers

  /** The drawing tools `setTool` can select. */
  datatype Tool = Brush | Eraser | Line | Rectangle | Circle

  /** What a toolbar button's click does. */
  datatype Command = SelectTool(tool: Tool) | Undo | Redo | Clear | Save

  /** One toolbar button: its name, its one-letter shortcut (`data-shortcut`),
      its element id and its click action; icons and tooltips are presentational. */
  datatype ToolButton = ToolButton(name: string, shortcut: string, id: string, onClick: Command)

  /** The nine buttons, in toolbar (and so document) order. */
  const ToolTable: seq<ToolButton> := [
    ToolButton("Brush", "b", "brush", SelectTool(Brush)),
    ToolButton("Eraser", "e", "eraser", SelectTool(Eraser)),
    ToolButton("Line", "l", "line", SelectTool(Line)),
    ToolButton("Rectangle", "r", "rectangle", SelectTool(Rectangle)),
    ToolButton("Circle", "c", "circle", SelectTool(Circle)),
    ToolButton("Undo", "z", "undo", Undo),
    ToolButton("Redo", "y", "redo", Redo),
    ToolButton("Clear", "x", "clear", Clear),
    ToolButton("Save", "s", "save", Save)
  ]

  /** The parts of a `keydown` event the handler reads. */
  datatype KeyEvent = KeyEvent(ctrlKey: bool, metaKey: bool, shiftKey: bool, key: string, targetTag: string)

  function LowerChar(c: char): char
  {
    if 'A' <= c <= 'Z' then (c as int + 32) as char else c
  }

  predicate IsLower(s: string)
  {
    forall i :: 0 <= i < |s| ==> !('A' <= s[i] <= 'Z')
  }

  /** `toLowerCase` on the ASCII letters. */
  function ToLower(s: string): (r: string)
    ensures |r| == |s| && IsLower(r)
    ensures forall i :: 0 <= i < |s| && !('A' <= s[i] <= 'Z') ==> r[i] == s[i]
    ensures forall i :: 0 <= i < |s| && 'A' <= s[i] <= 'Z' ==> r[i] as int - 'a' as int == s[i] as int - 'A' as int
  {
    seq(|s|, i requires 0 <= i < |s| => LowerChar(s[i]))
  }

  lemma ToLowerIdempotent(s: string)
    ensures ToLower(ToLower(s)) == ToLower(s)
  {
  }

  /** The handler looks at a key only with Ctrl or Meta held, Shift held,
      and focus outside an INPUT element. */
  predicate ShortcutsEnabled(e: KeyEvent)
  {
    (e.ctrlKey || e.metaKey) && e.shiftKey && e.targetTag != "INPUT"
  }

  /** `Array.find` over the buttons: the first one whose shortcut equals `key`. */
  function FindShortcut(buttons: seq<ToolButton>, key: string): (r: Option<nat>)
    ensures r.Some? ==> r.value < |buttons| && buttons[r.value].shortcut == key
    ensures r.Some? ==> forall j :: 0 <= j < r.value ==> buttons[j].shortcut != key
    ensures r.None? <==> forall j :: 0 <= j < |buttons| ==> buttons[j].shortcut != key
  {
    if |buttons| == 0 then None
    else if buttons[0].shortcut == key then Some(0)
    else match FindShortcut(buttons[1..], key)
      case None => None
      case Some(i) => Some(i + 1)
  }

  /** The command a key press triggers, if any: the click of the matching button. */
  function Dispatch(e: KeyEvent): (r: Option<Command>)
    ensures !ShortcutsEnabled(e) ==> r == None
  {
    if !ShortcutsEnabled(e) then None
    else match FindShortcut(ToolTable, ToLower(e.key))
      case None => None
      case Some(i) => Some(ToolTable[i].onClick)
  }

  /** The nine shortcut letters are pairwise distinct, so at most one button matches a key. */
  lemma ShortcutsDistinct()
    ensures |ToolTable| == 9
    ensures forall i, j :: 0 <= i < |ToolTable| && 0 <= j < |ToolTable| && ToolTable[i].shortcut == ToolTable[j].shortcut ==> i == j
  {
    var letters := seq(|ToolTable|, i requires 0 <= i < |ToolTable| => ToolTable[i].shortcut);
    assert letters == ["b", "e", "l", "r", "c", "z", "y", "x", "s"];
  }

  /** A key press triggers command `c` exactly when shortcuts are enabled and some
      button whose shortcut is the lower-cased key has `c` as its click action. */
  lemma DispatchSpec(e: KeyEvent, c: Command)
    ensures Dispatch(e) == Some(c)
        <==> ShortcutsEnabled(e)
             && exists i :: 0 <= i < |ToolTable| && ToolTable[i].shortcut == ToLower(e.key) && ToolTable[i].onClick == c
  {
    if ShortcutsEnabled(e) {
      var key := ToLower(e.key);
      var r := FindShortcut(ToolTable, key);
      if i :| 0 <= i < |ToolTable| && ToolTable[i].shortcut == key && ToolTable[i].onClick == c {
        ShortcutsDistinct();
        assert r.Some? && r.value == i;
      }
    }
  }

  /** A key that is no button's shortcut does nothing. */
  lemma UnmatchedKeyIgnored(e: KeyEvent)
    requires forall i :: 0 <= i < |ToolTable| ==> ToolTable[i].shortcut != ToLower(e.key)
    ensures Dispatch(e) == None
  {
  }

  /** Ctrl+Shift+Z undoes and Meta+Shift+B selects the brush. */
  lemma DispatchExamples()
    ensures Dispatch(KeyEvent(true, false, true, "Z", "CANVAS")) == Some(Undo)
    ensures Dispatch(KeyEvent(false, true, true, "B", "BODY")) == Some(SelectTool(Brush))
  {
    assert ToLower("Z") == "z";
    assert ToolTable[5].shortcut == "z";
    DispatchSpec(KeyEvent(true, false, true, "Z", "CANVAS"), Undo);
    assert ToLower("B") == "b";
    assert ToolTable[0].shortcut == "b";
    DispatchSpec(KeyEvent(false, true, true, "B", "BODY"), SelectTool(Brush));
  }

  /** The same key without Shift, or typed into an INPUT, does nothing;
      Ctrl+Shift+Q matches no button. */
  lemma IgnoredKeyExamples()
    ensures Dispatch(KeyEvent(true, false, false, "z", "BODY")) == None
    ensures Dispatch(KeyEvent(true, false, true, "Z", "INPUT")) == None
    ensures Dispatch(KeyEvent(true, false, true, "Q", "BODY")) == None
  {
    assert ToLower("Q") == "q";
    var letters := seq(|ToolTable|, i requires 0 <= i < |ToolTable| => ToolTable[i].shortcut);
    assert letters == ["b", "e", "l", "r", "c", "z", "y", "x", "s"];
    forall i | 0 <= i < |ToolTable|
      ensures ToolTable[i].shortcut != "q"
    {
      assert ToolTable[i].shortcut == letters[i];
    }
    UnmatchedKeyIgnored(KeyEvent(true, false, true, "Q", "BODY"));
  }

  /** Every drawing tool has a button that selects it. */
  lemma EveryToolHasButton(t: Tool)
    ensures exists i :: 0 <= i < |ToolTable| && ToolTable[i].onClick == SelectTool(t)
  {
    match t
    case Brush => assert ToolTable[0].onClick == SelectTool(t);
    case Eraser => assert ToolTable[1].onClick == SelectTool(t);
    case Line => assert ToolTable[2].onClick == SelectTool(t);
    case Rectangle => assert ToolTable[3].onClick == SelectTool(t);
    case Circle => assert ToolTable[4].onClick == SelectTool(t);
  }
}
