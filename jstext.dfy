/** String helpers of the client: JavaScript's `String.prototype.trim` and
    the `truncateText` helper used when previews are rendered. */
module JsText {

  import opened Outcomes

  /** The characters `trim` removes: ECMAScript WhiteSpace and LineTerminator. */
  predicate IsWhitespace(c: char)
  {
    c in {'\t', '\n', '\U{000B}', '\U{000C}', '\r', ' ', '\U{00A0}', '\U{1680}',
          '\U{2028}', '\U{2029}', '\U{202F}', '\U{205F}', '\U{3000}', '\U{FEFF}'}
    || ('\U{2000}' <= c <= '\U{200A}')
  }

  predicate AllWhitespace(s: string)
  {
    forall i :: 0 <= i < |s| ==> IsWhitespace(s[i])
  }

  /** Number of whitespace characters at the start of `s`. */
  function LeadingSpace(s: string): (n: nat)
    ensures n <= |s|
    ensures forall i :: 0 <= i < n ==> IsWhitespace(s[i])
    ensures n < |s| ==> !IsWhitespace(s[n])
  {
    if s == [] || !IsWhitespace(s[0]) then 0
    else 1 + LeadingSpace(s[1..])
  }

  /** Number of whitespace characters at the end of `s`. */
  function TrailingSpace(s: string): (n: nat)
    ensures n <= |s|
    ensures forall i :: |s| - n <= i < |s| ==> IsWhitespace(s[i])
    ensures n < |s| ==> !IsWhitespace(s[|s| - 1 - n])
  {
    if s == [] || !IsWhitespace(s[|s| - 1]) then 0
    else 1 + TrailingSpace(s[..|s| - 1])
  }

  /** `s.trim()`: `s` without its leading and trailing whitespace. */
  function Trim(s: string): (r: string)
    ensures |r| <= |s|
    ensures r != [] ==> !IsWhitespace(r[0]) && !IsWhitespace(r[|r| - 1])
    ensures r == [] <==> AllWhitespace(s)
    ensures LeadingSpace(s) + |r| <= |s| && s[LeadingSpace(s)..LeadingSpace(s) + |r|] == r
    ensures forall k :: LeadingSpace(s) + |r| <= k < |s| ==> IsWhitespace(s[k])
  {
    var a := LeadingSpace(s);
    if a == |s| then
      []
    else
      var rest := s[a..];
      var b := TrailingSpace(rest);
      assert b < |rest| by {
        assert !IsWhitespace(rest[0]);
      }
      var r := s[a..|s| - b];
      assert r[0] == s[a];
      assert r[|r| - 1] == rest[|rest| - 1 - b];
      assert forall k :: a + |r| <= k < |s| ==> s[k] == rest[k - a];
      r
  }

  /** Trimming twice is trimming once. */
  lemma {:induction false} TrimIdempotent(s: string)
    ensures Trim(Trim(s)) == Trim(s)
  {
    var t := Trim(s);
    if t != [] {
      assert LeadingSpace(t) == 0;
      assert TrailingSpace(t) == 0;
      assert t[0..|t| - 0] == t;
    }
  }

  /** `truncateText(text, maxLength)`; `None` stands for `null`/`undefined`.
      The result is empty exactly when the text is missing or empty; otherwise
      it is the text itself, or a prefix of it followed by `"..."`, no longer
      than `maxLength` whenever `maxLength >= 3`. */
  function Truncate(text: Option<string>, maxLength: int): (r: string)
    ensures r == [] <==> text == None || text.value == []
    ensures text != None && |text.value| <= maxLength ==> r == text.value
    ensures text != None && text.value != [] && |text.value| > maxLength ==>
              |r| >= 3 && r[|r| - 3..] == "..." && r[..|r| - 3] <= text.value
    ensures text != None && text.value != [] && maxLength >= 3 ==> |r| <= maxLength
    ensures text != None && |text.value| > maxLength >= 3 ==> |r| == maxLength
    ensures text != None && text.value != [] && |text.value| > maxLength && maxLength < 3 ==> r == "..."
  {
    if text == None || text.value == [] then ""
    else if |text.value| <= maxLength then text.value
    else
      // `substring` clamps a negative end index to 0
      var keep := if maxLength - 3 < 0 then 0 else maxLength - 3;
      var r := text.value[..keep] + "...";
      assert r[..|r| - 3] == text.value[..keep];
      r
  }

  /** A truncated text is left alone by a second truncation to the same length. */
  lemma TruncateIdempotent(t: string, maxLength: int)
    requires maxLength >= 3
    ensures Truncate(Some(Truncate(Some(t), maxLength)), maxLength) == Truncate(Some(t), maxLength)
  {
  }
}
