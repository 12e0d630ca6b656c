/** Name conventions: the normalisation that turns a declared element type or a
    raw canvas event name into a PascalCase identifier, the closed set of
    event-handler property names, and the choice of handler a canvas event is
    dispatched to (index.js:17-71, 546-561). */
module Names {
  import opened Values

  predicate IsWordChar(c: char) {
    'a' <= c <= 'z' || 'A' <= c <= 'Z' || '0' <= c <= '9'
  }

  function UpperFirst(c: char): char {
    if 'a' <= c <= 'z' then (c as int - 'a' as int + 'A' as int) as char else c
  }

  /** `startCase(name)` with its spaces removed, for names made of ASCII words
      separated by punctuation: every maximal run of ASCII letters and digits
      keeps its characters, its first letter upper-cased, and the runs are
      concatenated ("i-text" becomes "IText"). */
  function NormalizeName(name: string): string {
    Words(name, true)
  }

  /** `wordStart` holds when the previous character was a separator (or there was none). */
  function Words(s: string, wordStart: bool): string
    decreases |s|
  {
    if s == [] then []
    else if !IsWordChar(s[0]) then Words(s[1..], true)
    else [if wordStart then UpperFirst(s[0]) else s[0]] + Words(s[1..], false)
  }

  predicate AllWordChars(s: string) {
    forall j :: 0 <= j < |s| ==> IsWordChar(s[j])
  }

  lemma {:induction false} WordsAreWordChars(s: string, wordStart: bool)
    ensures AllWordChars(Words(s, wordStart))
    ensures |Words(s, wordStart)| <= |s|
    decreases |s|
  {
    if s != [] {
      WordsAreWordChars(s[1..], true);
      WordsAreWordChars(s[1..], false);
    }
  }

  lemma {:induction false} WordsOfWordChars(s: string)
    requires AllWordChars(s)
    ensures Words(s, false) == s
    decreases |s|
  {
    if s != [] {
      assert AllWordChars(s[1..]) by {
        forall j | 0 <= j < |s[1..]| ensures IsWordChar(s[1..][j]) {
          assert s[1..][j] == s[j + 1];
        }
      }
      WordsOfWordChars(s[1..]);
    }
  }

  /** A normalised name consists of letters and digits only, starts with no
      lower-case letter, and normalising it again changes nothing. */
  lemma NormalizeNameIsCanonical(name: string)
    ensures AllWordChars(NormalizeName(name))
    ensures NormalizeName(name) != [] ==> !('a' <= NormalizeName(name)[0] <= 'z')
    ensures NormalizeName(NormalizeName(name)) == NormalizeName(name)
  {
    var r := NormalizeName(name);
    WordsAreWordChars(name, true);
    FirstIsUpper(name, true);
    if r != [] {
      var tail := r[1..];
      assert AllWordChars(tail) by {
        forall j | 0 <= j < |tail| ensures IsWordChar(tail[j]) {
          assert tail[j] == r[j + 1];
        }
      }
      WordsOfWordChars(tail);
      assert r == [r[0]] + tail;
      assert UpperFirst(r[0]) == r[0];
      assert Words(r, true) == [UpperFirst(r[0])] + Words(tail, false);
    }
  }

  lemma {:induction false} FirstIsUpper(s: string, wordStart: bool)
    requires wordStart
    ensures Words(s, wordStart) != [] ==> !('a' <= Words(s, wordStart)[0] <= 'z')
    decreases |s|
  {
    if s != [] && !IsWordChar(s[0]) {
      FirstIsUpper(s[1..], true);
    }
  }

  /** `x.replace(/:/g, "-")` */
  function ColonsToDashes(s: string): (r: string)
    ensures |r| == |s|
    ensures forall j :: 0 <= j < |s| ==> r[j] == (if s[j] == ':' then '-' else s[j])
  {
    if s == [] then [] else [if s[0] == ':' then '-' else s[0]] + ColonsToDashes(s[1..])
  }

  /** The raw canvas events the surfaces listen to (index.js:34-63): the
      whitespace-separated words of a text that begins with a line break, so the
      split yields an empty first entry ahead of the event names. */
  const RawEventNames: seq<string> := [
    "",
    "object:modified", "object:moving", "object:scaling", "object:rotating",
    "object:skewing", "object:moved", "object:scaled", "object:rotated",
    "object:skewed", "before:transform", "before:selection:cleared",
    "selection:cleared", "selection:created", "selection:updated",
    "mouse:up", "mouse:down", "mouse:move", "mouse:up:before",
    "mouse:down:before", "mouse:move:before", "mouse:dblclick", "mouse:wheel",
    "mouse:over", "mouse:out", "drop", "dragover", "dragenter", "dragleave"
  ]

  /** `eventNames[x]`: the handler property a raw event is dispatched to. */
  function EventPropName(raw: string): (r: string)
    ensures |r| >= 2 && r[..2] == "on"
  {
    "on" + NormalizeName(ColonsToDashes(raw))
  }

  /** `eventHash`: the property names the reconciler assigns as event handlers
      instead of passing them to the drawable's setter: `onClick`, `onDblClick`
      and the handler name of every raw event (index.js:17-20, 63-67). */
  const EventHash: set<string> :=
    {"onClick", "onDblClick"} + set i | 0 <= i < |RawEventNames| :: EventPropName(RawEventNames[i])

  /** Every event-handler property name starts with "on"; the empty first raw
      name makes the bare "on" a handler name too. */
  lemma EventPropsStartWithOn()
    ensures forall k :: k in EventHash ==> |k| >= 2 && k[..2] == "on"
    ensures "on" in EventHash && EventPropName(RawEventNames[0]) == "on"
  {
    EmptyRawName();
  }

  lemma EmptyRawName()
    ensures RawEventNames[0] == "" && EventPropName("") == "on"
  {
  }

  /** A property whose name does not begin with "on" (the coordinates `left`,
      `top`, `width`, `height` among them) is never taken for an event handler. */
  lemma NotAHandler(k: string)
    requires |k| < 2 || k[..2] != "on"
    ensures k !in EventHash
  {
    EventPropsStartWithOn();
  }

  /** A run of letters and digits with its first letter upper-cased. */
  function Capitalized(w: string): string {
    if w == [] then [] else [UpperFirst(w[0])] + w[1..]
  }

  /** Runs of letters and digits joined by `sep`, as in "mouse:up:before". */
  function Joined(parts: seq<string>, sep: char): string
    requires |parts| >= 1
  {
    if |parts| == 1 then parts[0] else parts[0] + [sep] + Joined(parts[1..], sep)
  }

  function Pascal(parts: seq<string>): string {
    if parts == [] then [] else Capitalized(parts[0]) + Pascal(parts[1..])
  }

  predicate AllWords(parts: seq<string>) {
    forall i :: 0 <= i < |parts| ==> AllWordChars(parts[i])
  }

  lemma ColonsConcat(a: string, b: string)
    ensures ColonsToDashes(a + b) == ColonsToDashes(a) + ColonsToDashes(b)
  {
    var l := ColonsToDashes(a + b);
    var r := ColonsToDashes(a) + ColonsToDashes(b);
    forall j | 0 <= j < |l| ensures l[j] == r[j] {
      if j < |a| { assert (a + b)[j] == a[j]; } else { assert (a + b)[j] == b[j - |a|]; }
    }
  }

  lemma NoColons(a: string)
    requires AllWordChars(a)
    ensures ColonsToDashes(a) == a
  {
    var l := ColonsToDashes(a);
    forall j | 0 <= j < |a| ensures l[j] == a[j] { assert IsWordChar(a[j]); }
  }

  lemma {:induction false} ColonsOfJoined(parts: seq<string>)
    requires |parts| >= 1 && AllWords(parts)
    ensures ColonsToDashes(Joined(parts, ':')) == Joined(parts, '-')
    decreases |parts|
  {
    NoColons(parts[0]);
    if |parts| > 1 {
      var rest := parts[1..];
      assert forall i :: 0 <= i < |rest| ==> rest[i] == parts[i + 1];
      ColonsOfJoined(rest);
      ColonsConcat(parts[0] + [':'], Joined(rest, ':'));
      ColonsConcat(parts[0], [':']);
      assert ColonsToDashes([':']) == ['-'];
    }
  }

  /** A run of word characters followed by a separator (or nothing) contributes
      itself, capitalised at a word start. */
  lemma {:induction false} WordsOfRun(p: string, t: string, ws: bool)
    requires AllWordChars(p) && (t == [] || !IsWordChar(t[0]))
    ensures Words(p + t, ws) == (if ws then Capitalized(p) else p) + Words(t, p == [] && ws)
    decreases |p|
  {
    if p == [] {
      assert p + t == t;
    } else {
      var q := p[1..];
      assert (p + t)[0] == p[0];
      assert (p + t)[1..] == q + t;
      assert AllWordChars(q) by {
        forall j | 0 <= j < |q| ensures IsWordChar(q[j]) { assert q[j] == p[j + 1]; }
      }
      WordsOfRun(q, t, false);
      assert Words(q + t, false) == q + Words(t, false);
      if t != [] {
        assert Words(t, false) == Words(t, true);
      }
      assert p == [p[0]] + q;
    }
  }

  lemma {:induction false} WordsOfJoined(parts: seq<string>)
    requires |parts| >= 1 && AllWords(parts)
    ensures Words(Joined(parts, '-'), true) == Pascal(parts)
    decreases |parts|
  {
    if |parts| == 1 {
      WordsOfRun(parts[0], [], true);
      assert parts[0] + [] == parts[0];
      assert Pascal(parts) == Capitalized(parts[0]) + Pascal([]);
    } else {
      var rest := parts[1..];
      assert forall i :: 0 <= i < |rest| ==> rest[i] == parts[i + 1];
      var tail := Joined(rest, '-');
      WordsOfRun(parts[0], ['-'] + tail, true);
      assert parts[0] + ['-'] + tail == parts[0] + (['-'] + tail);
      assert (['-'] + tail)[1..] == tail;
      WordsOfJoined(rest);
    }
  }

  /** The handler name of a colon-separated raw event is "on" followed by each
      colon-separated word with its first letter upper-cased ("mouse:up:before"
      becomes "onMouseUpBefore"). */
  lemma EventPropNameOfWords(parts: seq<string>)
    requires |parts| >= 1 && AllWords(parts)
    ensures EventPropName(Joined(parts, ':')) == "on" + Pascal(parts)
  {
    ColonsOfJoined(parts);
    WordsOfJoined(parts);
  }

  /** `EventPropNameOfWords` for two-word raw events. */
  lemma TwoWords(a: string, b: string)
    requires AllWordChars(a) && AllWordChars(b)
    ensures EventPropName(a + ":" + b) == "on" + Capitalized(a) + Capitalized(b)
  {
    var parts := [a, b];
    assert parts[1..] == [b];
    assert parts[1..][1..] == [];
    assert Joined(parts, ':') == a + ":" + b;
    assert Pascal(parts[1..][1..]) == [];
    assert Pascal(parts) == Capitalized(a) + Capitalized(b);
    EventPropNameOfWords(parts);
  }

  lemma TwoWordEvent(raw: string, a: string, b: string, name: string)
    requires AllWordChars(a) && AllWordChars(b) && raw == a + ":" + b
    requires name == "on" + Capitalized(a) + Capitalized(b)
    ensures EventPropName(raw) == name
  {
    TwoWords(a, b);
  }

  /** "mouse:up" is dispatched to `onMouseUp`, whose legacy alias is `onClick`. */
  lemma MouseUpIsClick()
    ensures EventPropName("mouse:up") == "onMouseUp"
    ensures AltEventNames[EventPropName("mouse:up")] == "onClick"
  {
    TwoWordEvent("mouse:up", "mouse", "up", "onMouseUp");
  }

  /** "mouse:dblclick" is dispatched to `onMouseDblclick`, whose legacy alias is `onDblClick`. */
  lemma MouseDblclickIsDblClick()
    ensures EventPropName("mouse:dblclick") == "onMouseDblclick"
    ensures AltEventNames[EventPropName("mouse:dblclick")] == "onDblClick"
  {
    TwoWordEvent("mouse:dblclick", "mouse", "dblclick", "onMouseDblclick");
  }

  /** Legacy handler names tried when the primary handler is absent (index.js:22-33). */
  const AltEventNames: map<string, string> := map[
    "onObjectMoved" := "onMoved",
    "onObjectMoving" := "onMoving",
    "onObjectScaling" := "onScaling",
    "onObjectRotating" := "onRotating",
    "onObjectSkewing" := "onSkewing",
    "onObjectScaled" := "onScaled",
    "onObjectRotated" := "onRotated",
    "onObjectSkewed" := "onSkewed",
    "onMouseUp" := "onClick",
    "onMouseDblclick" := "onDblClick"
  ]

  /** The handler property invoked on the event's target, if any: the primary
      handler when the target has a truthy one, otherwise the legacy alias when
      there is one and the target has it, otherwise none. */
  function HandlerFor(target: Option<Props>, prop: string): (h: Option<string>)
    ensures h.Some? <==>
      target.Some? &&
      (Truthy(Lookup(target.value, prop)) ||
       (prop in AltEventNames && Truthy(Lookup(target.value, AltEventNames[prop]))))
    ensures h.Some? && Truthy(Lookup(target.value, prop)) ==> h.value == prop
    ensures h.Some? && !Truthy(Lookup(target.value, prop)) ==>
      prop in AltEventNames && h.value == AltEventNames[prop]
  {
    if target.None? then None
    else if Truthy(Lookup(target.value, prop)) then Some(prop)
    else if prop in AltEventNames && Truthy(Lookup(target.value, AltEventNames[prop])) then
      Some(AltEventNames[prop])
    else None
  }

  /** What a surface does with a raw event: only listened-to events reach a
      handler; the handler invoked is one the target holds, truthy; it is the
      event's own handler whenever the target has that one, and otherwise its
      legacy alias; and the event's handler name is one the reconciler treats as
      an event handler rather than a drawable property. */
  function Dispatch(raw: string, target: Option<Props>): (h: Option<string>)
    ensures h.Some? ==> raw in RawEventNames && target.Some? && Truthy(Lookup(target.value, h.value))
    ensures h.Some? ==> EventPropName(raw) in EventHash
    ensures raw in RawEventNames && target.Some? && Truthy(Lookup(target.value, EventPropName(raw))) ==>
      h == Some(EventPropName(raw))
    ensures h.Some? && h.value != EventPropName(raw) ==>
      EventPropName(raw) in AltEventNames && h.value == AltEventNames[EventPropName(raw)]
    ensures h.None? <==>
      raw !in RawEventNames || target.None? ||
      (!Truthy(Lookup(target.value, EventPropName(raw))) &&
       (EventPropName(raw) !in AltEventNames ||
        !Truthy(Lookup(target.value, AltEventNames[EventPropName(raw)]))))
  {
    if raw in RawEventNames then HandlerFor(target, EventPropName(raw)) else None
  }
}
