/**
 * `loadQuestionsFromRaw` (MainActivity.kt, lines 100-119): choose the layer's resource
 * for the display language, read it line by line, and turn every line into a trimmed
 * `Question`; any exception while reading yields the empty list.
 *
 * Reading a resource is a parameter: `read(res)` is what `openRawResource(res)
 * .bufferedReader().useLines { ... }` sees, either the resource's lines or a failure.
 */
module Loader {
  import opened Options
  import opened Model
  import opened Catalog

  datatype ReadResult = Lines(lines: seq<string>) | ReadFailed

  /** `locale.language.startsWith("en")` */
  predicate IsEnglish(language: string)
    ensures IsEnglish(language) <==> 2 <= |language| && language[0] == 'e' && language[1] == 'n'
  {
    "en" <= language
  }

  /** The resource to open: the English variant for an English locale when the layer has one. */
  function ResourceToLoad(language: string, layer: Layer): (res: ResId)
    ensures res == layer.resource || layer.resourceEn == Some(res)
    ensures IsEnglish(language) && layer.resourceEn.Some? ==> res == layer.resourceEn.value
    ensures !IsEnglish(language) || layer.resourceEn.None? ==> res == layer.resource
  {
    if IsEnglish(language) && layer.resourceEn.Some? then layer.resourceEn.value
    else layer.resource
  }

  /**
   * Kotlin's `Char.isWhitespace()`: the Java whitespace controls and every Unicode
   * space, line and paragraph separator.
   */
  predicate IsWhitespace(c: char)
    ensures c == ' ' || c == '\t' || c == '\n' || c == '\r' ==> IsWhitespace(c)
    ensures '0' <= c <= '9' || 'A' <= c <= 'Z' || 'a' <= c <= 'z' ==> !IsWhitespace(c)
    ensures IsWhitespace(c) ==> c <= '\U{3000}'
  {
    c == ' ' || '\t' <= c <= '\r' || '\U{1C}' <= c <= '\U{1F}' ||
    c == '\U{A0}' || c == '\U{1680}' || '\U{2000}' <= c <= '\U{200A}' ||
    c == '\U{2028}' || c == '\U{2029}' || c == '\U{202F}' || c == '\U{205F}' || c == '\U{3000}'
  }

  /** `s` with its leading whitespace dropped. */
  function TrimStart(s: string): (r: string)
    ensures |r| <= |s| && r == s[|s| - |r|..]
    ensures forall k :: 0 <= k < |s| - |r| ==> IsWhitespace(s[k])
    ensures r == [] || !IsWhitespace(r[0])
  {
    if s != [] && IsWhitespace(s[0]) then TrimStart(s[1..]) else s
  }

  /** `s` with its trailing whitespace dropped. */
  function TrimEnd(s: string): (r: string)
    ensures |r| <= |s| && r == s[..|r|]
    ensures forall k :: |r| <= k < |s| ==> IsWhitespace(s[k])
    ensures r == [] || !IsWhitespace(r[|r| - 1])
  {
    if s != [] && IsWhitespace(s[|s| - 1]) then TrimEnd(s[..|s| - 1]) else s
  }

  /**
   * `String.trim()`: the longest middle part of `s` with whitespace on neither end; what
   * it drops on either side is whitespace.
   */
  function Trim(s: string): (r: string)
    ensures r == [] || (!IsWhitespace(r[0]) && !IsWhitespace(r[|r| - 1]))
    ensures exists i :: 0 <= i <= |s| - |r| && r == s[i..][..|r|] &&
                        (forall k :: 0 <= k < i ==> IsWhitespace(s[k])) &&
                        (forall k :: i + |r| <= k < |s| ==> IsWhitespace(s[k]))
  {
    var t := TrimStart(s);
    var r := TrimEnd(t);
    var i := |s| - |t|;
    assert r == s[i..][..|r|];
    r
  }

  /** `lines.map { line -> Question(line.trim()) }.toList()` */
  function ToQuestions(lines: seq<string>): (qs: seq<Question>)
    ensures |qs| == |lines|
    ensures forall k :: 0 <= k < |lines| ==> qs[k] == Question(Trim(lines[k]))
  {
    if lines == [] then []
    else [Question(Trim(lines[0]))] + ToQuestions(lines[1..])
  }

  /** `loadQuestionsFromRaw(context, layer)` with the context's language and resources. */
  function LoadQuestions(language: string, layer: Layer, read: ResId -> ReadResult): (qs: seq<Question>)
    ensures read(ResourceToLoad(language, layer)).ReadFailed? ==> qs == []
    ensures read(ResourceToLoad(language, layer)).Lines? ==>
              var lines := read(ResourceToLoad(language, layer)).lines;
              |qs| == |lines| && forall k :: 0 <= k < |lines| ==> qs[k].text == Trim(lines[k])
  {
    match read(ResourceToLoad(language, layer))
    case ReadFailed => []
    case Lines(lines) => ToQuestions(lines)
  }

  /** Trimming twice trims no more than trimming once. */
  lemma TrimIdempotent(s: string)
    ensures Trim(Trim(s)) == Trim(s)
  {
    var r := Trim(s);
    assert TrimStart(r) == r;
    assert TrimEnd(r) == r;
  }

  /**
   * A line trims to the empty text exactly when it is blank; such a line is kept as a
   * question with empty text, not dropped.
   */
  lemma TrimEmptyIffBlank(s: string)
    ensures Trim(s) == [] <==> forall k :: 0 <= k < |s| ==> IsWhitespace(s[k])
  {
    var r := Trim(s);
    if r != [] {
      var i :| 0 <= i <= |s| - |r| && r == s[i..][..|r|];
      assert s[i] == r[0];
    }
  }

  /**
   * For every layer of the catalog, an English locale loads the layer's `_en` resource
   * and any other language falls back to the default (Italian) resource.
   */
  lemma CatalogLocaleFallback(language: string, t: Topic, l: Layer)
    requires t in Topics() && l in t.layers
    ensures IsEnglish(language) ==> ResourceToLoad(language, l) == l.resource + "_en"
    ensures !IsEnglish(language) ==> ResourceToLoad(language, l) == l.resource
  {
    CatalogWellFormed();
  }
}
