/** `extractAssistantTextFromJsonlLine` (index.js:78-90): the assistant text
    of one parsed line of a session transcript, the non-blank text parts
    trimmed and joined by a blank line, with the `textSignature` of the
    first part typed `text`. */
module Transcript {
  import opened Text

  datatype Option<T> = None | Some(value: T)

  /** A value produced by `JSON.parse`. */
  datatype Json = Null | Bool(b: bool) | Num(n: real) | Str(s: string) | Arr(items: seq<Json>) | Obj(fields: map<string, Json>)

  predicate Truthy(j: Json) {
    match j
    case Null => false
    case Bool(b) => b
    case Num(n) => n != 0.0
    case Str(s) => s != ""
    case _ => true
  }

  /** A property read; None stands for `undefined`. Only objects carry the
      properties read here. */
  function Get(j: Json, key: string): Option<Json> {
    if j.Obj? && key in j.fields then Some(j.fields[key]) else None
  }

  predicate HasType(j: Json, t: string) {
    Get(j, "type") == Some(Str(t))
  }

  datatype Extracted = Extracted(text: string, textSignature: Option<Json>)

  /** The trimmed text a content part contributes, if any. */
  function PartText(part: Json): Option<string> {
    var t := Get(part, "text");
    if Truthy(part) && HasType(part, "text") && t.Some? && t.value.Str? && Trim(t.value.s) != ""
    then Some(Trim(t.value.s))
    else None
  }

  /** The contributed texts of a list of parts, in order. */
  function Texts(parts: seq<Json>): seq<string>
    decreases |parts|
  {
    if |parts| == 0 then []
    else
      var last := PartText(parts[|parts| - 1]);
      Texts(parts[..|parts| - 1]) + (if last.Some? then [last.value] else [])
  }

  /** `parts.find(p => p?.type === 'text')?.textSignature` */
  function FirstSignature(parts: seq<Json>): Option<Json>
    decreases |parts|
  {
    if |parts| == 0 then None
    else if HasType(parts[0], "text") then Get(parts[0], "textSignature")
    else FirstSignature(parts[1..])
  }

  /** The content parts of a line, when it is an assistant message. */
  function AssistantParts(obj: Json): Option<seq<Json>> {
    if !Truthy(obj) || !HasType(obj, "message") then None
    else
      var msg := Get(obj, "message");
      if msg.None? || !Truthy(msg.value) || Get(msg.value, "role") != Some(Str("assistant")) then None
      else
        var content := Get(msg.value, "content");
        Some(if content.Some? && content.value.Arr? then content.value.items else [])
  }

  /** What the function returns for a line. */
  function ExtractOf(obj: Json): Option<Extracted> {
    var parts := AssistantParts(obj);
    if parts.None? || Texts(parts.value) == [] then None
    else Some(Extracted(Join(Texts(parts.value), "\n\n"), FirstSignature(parts.value)))
  }

  /** `extractAssistantTextFromJsonlLine`, with its loop over the parts. */
  method ExtractAssistantText(obj: Json) returns (r: Option<Extracted>)
    ensures r == ExtractOf(obj)
  {
    var parts := AssistantParts(obj);
    if parts.None? {
      return None;
    }
    var ps := parts.value;
    var texts: seq<string> := [];
    var i := 0;
    while i < |ps|
      invariant 0 <= i <= |ps|
      invariant texts == Texts(ps[..i])
    {
      assert ps[..i + 1][..i] == ps[..i];
      var part := ps[i];
      var t := Get(part, "text");
      if Truthy(part) && HasType(part, "text") && t.Some? && t.value.Str? && Trim(t.value.s) != "" {
        texts := texts + [Trim(t.value.s)];
      }
      i := i + 1;
    }
    assert ps[..|ps|] == ps;
    if |texts| == 0 {
      return None;
    }
    return Some(Extracted(Join(texts, "\n\n"), FirstSignature(ps)));
  }

  /** Each contributed text is trimmed and not blank. */
  lemma {:induction false} TextsTrimmed(parts: seq<Json>)
    ensures forall k :: 0 <= k < |Texts(parts)| ==> Texts(parts)[k] != "" && Trim(Texts(parts)[k]) == Texts(parts)[k]
    decreases |parts|
  {
    if |parts| > 0 {
      TextsTrimmed(parts[..|parts| - 1]);
      var p := parts[|parts| - 1];
      if PartText(p).Some? {
        var t := Get(p, "text").value.s;
        TrimIdempotent(t);
      }
    }
  }

  predicate Contributes(part: Json) {
    PartText(part).Some?
  }

  /** Some text is collected exactly when some part contributes. */
  lemma {:induction false} TextsNonEmptyIff(parts: seq<Json>)
    ensures Texts(parts) != [] <==> exists k :: 0 <= k < |parts| && Contributes(parts[k])
    decreases |parts|
  {
    if |parts| > 0 {
      var init := parts[..|parts| - 1];
      var last := parts[|parts| - 1];
      TextsNonEmptyIff(init);
      TextsLast(parts);
      SomeContributesLast(parts, init);
    }
  }

  /** Some part contributes exactly when the last one does or one before it. */
  lemma SomeContributesLast(parts: seq<Json>, init: seq<Json>)
    requires |parts| > 0 && init == parts[..|parts| - 1]
    ensures (exists k :: 0 <= k < |parts| && Contributes(parts[k])) <==>
      Contributes(parts[|parts| - 1]) || (exists k :: 0 <= k < |init| && Contributes(init[k]))
  {
    ExistsSplit(parts, init, Contributes);
  }

  lemma ExistsSplit<T>(s: seq<T>, init: seq<T>, p: T -> bool)
    requires |s| > 0 && init == s[..|s| - 1]
    ensures (exists k :: 0 <= k < |s| && p(s[k])) <==> p(s[|s| - 1]) || (exists k :: 0 <= k < |init| && p(init[k]))
  {
    if k :| 0 <= k < |s| && p(s[k]) {
      if k < |init| {
        assert init[k] == s[k];
      }
    }
    if k :| 0 <= k < |init| && p(init[k]) {
      assert s[k] == init[k];
    }
  }

  /** The last part adds its text, or nothing when it does not contribute. */
  lemma TextsLast(parts: seq<Json>)
    requires |parts| > 0
    ensures Contributes(parts[|parts| - 1]) ==> Texts(parts) != []
    ensures !Contributes(parts[|parts| - 1]) ==> Texts(parts) == Texts(parts[..|parts| - 1])
  {
  }

  lemma TrimIdempotent(s: string)
    ensures Trim(Trim(s)) == Trim(s)
  {
    var t := Trim(s);
    if t != [] {
      assert !IsSpace(t[0]) && !IsSpace(t[|t| - 1]);
      TrimEndKeepsStart(TrimStart(s));
    }
  }

  lemma TrimEndKeepsStart(s: string)
    requires s == [] || !IsSpace(s[0])
    ensures TrimEnd(s) == [] || !IsSpace(TrimEnd(s)[0])
  {
  }

  /** A line yields text exactly when it is an assistant message with at
      least one non-blank text part; the text is then not blank. */
  lemma ExtractIff(obj: Json)
    ensures ExtractOf(obj).Some? <==>
      AssistantParts(obj).Some? && exists k :: 0 <= k < |AssistantParts(obj).value| && Contributes(AssistantParts(obj).value[k])
    ensures ExtractOf(obj).Some? ==> ExtractOf(obj).value.text != ""
  {
    var parts := AssistantParts(obj);
    if parts.Some? {
      TextsNonEmptyIff(parts.value);
      TextsTrimmed(parts.value);
      var ts := Texts(parts.value);
      if ts != [] {
        JoinNonEmpty(ts, "\n\n");
      }
    }
  }

  lemma {:induction false} JoinNonEmpty(parts: seq<string>, sep: string)
    requires |parts| > 0 && parts[0] != ""
    ensures Join(parts, sep) != ""
  {
    if |parts| > 1 {
      assert |Join(parts, sep)| >= |parts[0]|;
    }
  }

  function BlankPart(): Json {
    Obj(map["type" := Str("text"), "text" := Str(" "), "textSignature" := Str("a")])
  }

  function HiPart(): Json {
    Obj(map["type" := Str("text"), "text" := Str("hi"), "textSignature" := Str("b")])
  }

  function LineOf(parts: seq<Json>): Json {
    Obj(map["type" := Str("message"), "message" := Obj(map["role" := Str("assistant"), "content" := Arr(parts)])])
  }

  lemma LineParts(parts: seq<Json>)
    ensures AssistantParts(LineOf(parts)) == Some(parts)
  {
    var msg := Obj(map["role" := Str("assistant"), "content" := Arr(parts)]);
    assert Get(LineOf(parts), "message") == Some(msg);
    assert Get(msg, "content") == Some(Arr(parts));
  }

  lemma TrimBlank()
    ensures Trim(" ") == ""
  {
    assert " "[1..] == "";
    assert TrimStart(" ") == "";
  }

  lemma TrimHi()
    ensures Trim("hi") == "hi"
  {
    TrimUnchanged("hi");
  }

  lemma BlankPartText()
    ensures PartText(BlankPart()) == None
  {
    var m := map["type" := Str("text"), "text" := Str(" "), "textSignature" := Str("a")];
    assert "text" in m && m["text"] == Str(" ");
    TrimBlank();
  }

  lemma HiPartText()
    ensures PartText(HiPart()) == Some("hi")
  {
    var m := map["type" := Str("text"), "text" := Str("hi"), "textSignature" := Str("b")];
    assert Get(HiPart(), "type") == Some(Str("text")) by {
      assert "type" in m && m["type"] == Str("text");
    }
    assert Get(HiPart(), "text") == Some(Str("hi")) by {
      assert "text" in m && m["text"] == Str("hi");
    }
    TrimHi();
  }

  /** The signature comes from the first part typed `text` even when that
      part is blank and contributes nothing. */
  lemma SignatureFromBlankPart()
    ensures ExtractOf(LineOf([BlankPart(), HiPart()])) == Some(Extracted("hi", Some(Str("a"))))
  {
    var parts := [BlankPart(), HiPart()];
    LineParts(parts);
    assert Texts(parts) == ["hi"] by {
      BlankPartText();
      HiPartText();
      assert parts[..1] == [BlankPart()];
      assert Texts([BlankPart()]) == [] by {
        assert [BlankPart()][..0] == [];
      }
    }
    assert FirstSignature(parts) == Some(Str("a")) by {
      var m := map["type" := Str("text"), "text" := Str(" "), "textSignature" := Str("a")];
      assert "type" in m && m["type"] == Str("text");
      assert "textSignature" in m && m["textSignature"] == Str("a");
    }
  }
}
