/**
 * The two string helpers of the milestone script: converting an ASCII road
 * name to the full-width forms used in Chinese map labels, and recognising an
 * OpenStreetMap `ref` value that names national road G206.
 */
module MilestoneText {

  /** Distance from a printable ASCII character to its full-width form. */
  const FULLWIDTH_OFFSET: int := 0xFEE0

  predicate IsPrintableAscii(c: char)
  {
    33 <= c as int <= 126
  }

  /** The block U+FF01..U+FF5E of full-width forms. */
  predicate IsFullwidthForm(c: char)
  {
    0xFF01 <= c as int <= 0xFF5E
  }

  function ToFullwidth(c: char): char
  {
    if IsPrintableAscii(c) then (c as int + FULLWIDTH_OFFSET) as char else c
  }

  /** An independent reading of the conversion in the other direction. */
  function ToHalfwidth(c: char): char
  {
    if IsFullwidthForm(c) then (c as int - FULLWIDTH_OFFSET) as char else c
  }

  /** Converts every printable ASCII character of `text` and keeps the rest. */
  method HalfwidthToFullwidth(text: string) returns (r: string)
    ensures |r| == |text|
    ensures forall i :: 0 <= i < |text| && IsPrintableAscii(text[i]) ==>
              r[i] as int == text[i] as int + FULLWIDTH_OFFSET && IsFullwidthForm(r[i])
    ensures forall i :: 0 <= i < |text| && !IsPrintableAscii(text[i]) ==> r[i] == text[i]
    ensures forall i :: 0 <= i < |text| ==> r[i] == ToFullwidth(text[i])
  {
    var result: seq<char> := [];
    for k := 0 to |text|
      invariant |result| == k
      invariant forall i :: 0 <= i < k ==> result[i] == ToFullwidth(text[i])
    {
      var c := text[k];
      if 33 <= c as int <= 126 {
        result := result + [(c as int + FULLWIDTH_OFFSET) as char];
      } else {
        result := result + [c];
      }
    }
    r := result;
  }

  /** Converting back recovers every character that was not already a
      full-width form, so the conversion loses nothing on such text. */
  lemma HalfwidthUndoesFullwidth(c: char)
    requires !IsFullwidthForm(c)
    ensures ToHalfwidth(ToFullwidth(c)) == c
  {
  }

  /** Python's `str.split(sep)` for a one-character separator: never empty,
      and an empty string gives `[""]`. */
  function Split(s: string, sep: char): (parts: seq<string>)
    ensures |parts| >= 1
    ensures forall i :: 0 <= i < |parts| ==> sep !in parts[i]
  {
    if s == [] then [[]]
    else
      var rest := Split(s[1..], sep);
      if s[0] == sep then [[]] + rest
      else [[s[0]] + rest[0]] + rest[1..]
  }

  /** Python's `sep.join(parts)`. */
  function Join(parts: seq<string>, sep: char): string
  {
    if parts == [] then []
    else if |parts| == 1 then parts[0]
    else parts[0] + [sep] + Join(parts[1..], sep)
  }

  /** Splitting and joining again gives back the original string. */
  lemma {:induction false} JoinSplit(s: string, sep: char)
    ensures Join(Split(s, sep), sep) == s
  {
    if s != [] {
      var rest := Split(s[1..], sep);
      JoinSplit(s[1..], sep);
      if s[0] == sep {
        assert ([[]] + rest)[1..] == rest;
        assert s == [] + [sep] + s[1..];
      } else {
        var parts := [[s[0]] + rest[0]] + rest[1..];
        if |rest| == 1 {
          assert Join(rest, sep) == rest[0];
        } else {
          assert parts[1..] == rest[1..];
          assert Join(rest, sep) == rest[0] + [sep] + Join(rest[1..], sep);
        }
      }
    }
  }

  /** The value of a `ref` cell: a string, or anything else (NaN, a number). */
  datatype RefValue = Str(s: string) | NotStr

  /** A `ref` value names G206 when one of its `;`-separated parts is G206
      (or when the parts include both G316 and G206). */
  function FilterRefs(ref: RefValue): bool
  {
    match ref
    case NotStr => false
    case Str(s) =>
      var parts := Split(s, ';');
      "G206" in parts || (set p | p in parts) >= {"G316", "G206"}
  }

  /** The result is exactly "G206 is one of the parts"; the second test
      never changes it. */
  lemma FilterRefsExact(ref: RefValue)
    ensures FilterRefs(ref) <==> ref.Str? && "G206" in Split(ref.s, ';')
  {
    if ref.Str? {
      var parts := Split(ref.s, ';');
      if (set p | p in parts) >= {"G316", "G206"} {
        assert "G206" in (set p | p in parts);
      }
    }
  }
}
