/** Trimming, UTF-8 length and identifier validation (backend/src/utils/text.rs). */
module Text {
  import opened Common

  /** The characters with the Unicode property White_Space. */
  predicate IsWhitespace(c: char) {
    var n := c as int;
    || 0x09 <= n <= 0x0D || n == 0x20 || n == 0x85 || n == 0xA0 || n == 0x1680
    || 0x2000 <= n <= 0x200A || n == 0x2028 || n == 0x2029 || n == 0x202F
    || n == 0x205F || n == 0x3000
  }

  /** The characters of the Unicode category Cc. */
  predicate IsControl(c: char) {
    var n := c as int;
    n < 0x20 || 0x7F <= n <= 0x9F
  }

  function Utf8Width(c: char): nat {
    var n := c as int;
    if n < 0x80 then 1 else if n < 0x800 then 2 else if n < 0x10000 then 3 else 4
  }

  function ByteLen(s: string): nat {
    if s == "" then 0 else Utf8Width(s[0]) + ByteLen(s[1..])
  }

  function TrimStart(s: string): string {
    if s != "" && IsWhitespace(s[0]) then TrimStart(s[1..]) else s
  }

  function TrimEnd(s: string): string {
    if s != "" && IsWhitespace(s[|s| - 1]) then TrimEnd(s[..|s| - 1]) else s
  }

  function Trim(s: string): string {
    TrimEnd(TrimStart(s))
  }

  predicate Trimmed(s: string) {
    s == "" || (!IsWhitespace(s[0]) && !IsWhitespace(s[|s| - 1]))
  }

  lemma {:induction false} TrimEndIsPrefix(s: string)
    ensures TrimEnd(s) <= s
    ensures TrimEnd(s) == "" || !IsWhitespace(TrimEnd(s)[|TrimEnd(s)| - 1])
  {
    if s != "" && IsWhitespace(s[|s| - 1]) {
      TrimEndIsPrefix(s[..|s| - 1]);
    }
  }

  lemma {:induction false} TrimStartStops(s: string)
    ensures TrimStart(s) == "" || !IsWhitespace(TrimStart(s)[0])
  {
    if s != "" && IsWhitespace(s[0]) {
      TrimStartStops(s[1..]);
    }
  }

  /** The result of a trim has no outer white space, and trimming again changes nothing. */
  lemma TrimIsTrimmed(s: string)
    ensures Trimmed(Trim(s))
    ensures Trim(Trim(s)) == Trim(s)
  {
    TrimStartStops(s);
    TrimEndIsPrefix(TrimStart(s));
  }

  lemma TrimOfTrimmed(s: string)
    requires Trimmed(s)
    ensures Trim(s) == s
  {
  }

  datatype NameError = Empty | TooLong | Invalid

  function NormalizeIdentifier(raw: string, maxLen: nat, valid: char -> bool): Result<string, NameError> {
    var trimmed := Trim(raw);
    if trimmed == "" then Err(Empty)
    else if ByteLen(trimmed) > maxLen then Err(TooLong)
    else if exists c :: c in trimmed && !valid(c) then Err(Invalid)
    else Ok(trimmed)
  }

  /** A normalised identifier is its own normal form. */
  lemma NormalizeIdempotent(raw: string, maxLen: nat, valid: char -> bool)
    requires NormalizeIdentifier(raw, maxLen, valid).Ok?
    ensures var name := NormalizeIdentifier(raw, maxLen, valid).value;
            name != "" && NormalizeIdentifier(name, maxLen, valid) == Ok(name)
  {
    TrimIsTrimmed(raw);
  }
}
