/**
 The search query text (backend/src/documents/search.rs): tokens are lowercased,
 escaped and printed as one clause each; parsing the text gives the tokens back.
 How Unicode text is lowercased is a parameter.
*/
module SearchQuery {
  import opened Common
  import opened Text

  predicate IsSpecial(c: char) {
    || c == '+' || c == '-' || c == '&' || c == '|' || c == '!' || c == '(' || c == ')' || c == '{' || c == '}' || c == '['
    || c == ']' || c == '^' || c == '"' || c == '~' || c == '*' || c == '?' || c == ':' || c == '\\' || c == '/'
  }

  predicate IsWord(s: string) {
    s != "" && forall c :: c in s ==> !IsWhitespace(c)
  }

  // ---------- Printing ----------

  /** The longest prefix without white space. */
  function Word(s: string): (w: string)
    ensures w <= s && forall c :: c in w ==> !IsWhitespace(c)
    ensures |w| == |s| || IsWhitespace(s[|w|])
  {
    if s == "" || IsWhitespace(s[0]) then "" else [s[0]] + Word(s[1..])
  }

  function SplitWhitespace(s: string): (tokens: seq<string>)
    ensures forall t :: t in tokens ==> IsWord(t)
    decreases |s|
  {
    if s == "" then []
    else if IsWhitespace(s[0]) then SplitWhitespace(s[1..])
    else [Word(s)] + SplitWhitespace(s[|Word(s)|..])
  }

  function EscapedChar(c: char): string {
    if IsSpecial(c) then ['\\', c] else [c]
  }

  function Escape(token: string): string {
    if token == "" then "" else EscapedChar(token[0]) + Escape(token[1..])
  }

  lemma {:induction false} EscapeSnoc(token: string, c: char)
    ensures Escape(token + [c]) == Escape(token) + EscapedChar(c)
  {
    if token == "" {
      assert token + [c] == [c];
      assert Escape([c][1..]) == "";
    } else {
      assert (token + [c])[1..] == token[1..] + [c];
      EscapeSnoc(token[1..], c);
    }
  }

  method EscapeToken(token: string) returns (escaped: string)
    ensures escaped == Escape(token)
  {
    escaped := "";
    for i := 0 to |token|
      invariant escaped == Escape(token[..i])
    {
      var ch := token[i];
      EscapeSnoc(token[..i], ch);
      assert token[..i + 1] == token[..i] + [ch];
      if IsSpecial(ch) {
        escaped := escaped + ['\\'];
        escaped := escaped + [ch];
      } else {
        escaped := escaped + [ch];
      }
    }
    assert token[..|token|] == token;
  }

  function Clause(escaped: string): string {
    "(title:" + escaped + " OR text:" + escaped + ")"
  }

  function Join(parts: seq<string>): string
    requires parts != []
  {
    if |parts| == 1 then parts[0] else parts[0] + " AND " + Join(parts[1..])
  }

  function Map<T, U>(s: seq<T>, f: T -> U): (r: seq<U>)
    ensures |r| == |s| && forall i :: 0 <= i < |s| ==> r[i] == f(s[i])
  {
    seq(|s|, i requires 0 <= i < |s| => f(s[i]))
  }

  /** Lowercasing a word gives a word. */
  ghost predicate KeepsWords(lower: string -> string) {
    forall w :: IsWord(w) ==> IsWord(lower(w))
  }

  function BuildQuery(input: string, lower: string -> string): Option<string> {
    var tokens := Map(SplitWhitespace(input), lower);
    if tokens == [] then None
    else Some(Join(Map(tokens, (t: string) => Clause(Escape(t)))))
  }

  // ---------- Escaping ----------

  function Unescape(s: string): Option<string> {
    if s == "" then Some("")
    else if s[0] == '\\' then
      if |s| < 2 then None
      else
        var rest := Unescape(s[2..]);
        if rest.None? then None else Some([s[1]] + rest.value)
    else
      var rest := Unescape(s[1..]);
      if rest.None? then None else Some([s[0]] + rest.value)
  }

  /** Every special character stands behind a backslash. */
  predicate NoneBare(s: string) {
    s == "" || if s[0] == '\\' then |s| >= 2 && NoneBare(s[2..]) else !IsSpecial(s[0]) && NoneBare(s[1..])
  }

  lemma {:induction false} EscapeRoundTrip(token: string)
    ensures Unescape(Escape(token)) == Some(token)
    ensures NoneBare(Escape(token))
  {
    if token != "" {
      EscapeRoundTrip(token[1..]);
      UnescapeOne(token, Escape(token[1..]));
    }
  }

  lemma UnescapeOne(token: string, tail: string)
    requires token != "" && Unescape(tail) == Some(token[1..]) && NoneBare(tail)
    ensures Unescape(EscapedChar(token[0]) + tail) == Some(token)
    ensures NoneBare(EscapedChar(token[0]) + tail)
  {
    var s := EscapedChar(token[0]) + tail;
    assert [token[0]] + token[1..] == token;
    if IsSpecial(token[0]) {
      assert s[0] == '\\' && s[1] == token[0] && s[2..] == tail;
    } else {
      assert s[0] == token[0] && s[1..] == tail;
    }
  }

  // ---------- Parsing ----------

  datatype Read = Read(token: string, rest: string)

  /** Reads up to the first special character or white space without a backslash. */
  function ReadToken(s: string): (r: Read)
    ensures |r.rest| <= |s|
  {
    if s == "" then Read("", "")
    else if s[0] == '\\' && |s| >= 2 then
      var r := ReadToken(s[2..]);
      Read([s[1]] + r.token, r.rest)
    else if IsSpecial(s[0]) || IsWhitespace(s[0]) then Read("", s)
    else
      var r := ReadToken(s[1..]);
      Read([s[0]] + r.token, r.rest)
  }

  function Expect(prefix: string, s: string): (r: Option<string>)
    ensures r.Some? ==> s == prefix + r.value
  {
    if prefix <= s then Some(s[|prefix|..]) else None
  }

  /** clause ::= "(title:" token " OR text:" token ")", with the same token twice. */
  function ParseClause(s: string): (r: Option<Read>)
    ensures r.Some? ==> |r.value.rest| < |s|
  {
    var afterTitle := Expect("(title:", s);
    if afterTitle.None? then None
    else
      var first := ReadToken(afterTitle.value);
      var afterText := Expect(" OR text:", first.rest);
      if afterText.None? then None
      else
        var second := ReadToken(afterText.value);
        var end := Expect(")", second.rest);
        if end.None? || first.token != second.token then None else Some(Read(first.token, end.value))
  }

  /** query ::= clause | clause " AND " query */
  function ParseQuery(s: string): Option<seq<string>>
    decreases |s|
  {
    var clause := ParseClause(s);
    if clause.None? then None
    else if clause.value.rest == "" then Some([clause.value.token])
    else
      var after := Expect(" AND ", clause.value.rest);
      if after.None? then None
      else
        var rest := ParseQuery(after.value);
        if rest.None? then None else Some([clause.value.token] + rest.value)
  }

  lemma {:induction false} ReadEscaped(token: string, rest: string)
    requires forall c :: c in token ==> !IsWhitespace(c)
    requires rest != "" && rest[0] != '\\' && (IsSpecial(rest[0]) || IsWhitespace(rest[0]))
    ensures ReadToken(Escape(token) + rest) == Read(token, rest)
  {
    if token == "" {
      assert Escape(token) + rest == rest;
    } else {
      ReadEscaped(token[1..], rest);
      EscapeFirst(token, rest);
      ReadOneEscaped(token, Escape(token[1..]) + rest, rest);
    }
  }

  lemma EscapeFirst(token: string, rest: string)
    requires token != ""
    ensures Escape(token) + rest == EscapedChar(token[0]) + (Escape(token[1..]) + rest)
  {
  }

  lemma ReadOneEscaped(token: string, tail: string, rest: string)
    requires token != "" && !IsWhitespace(token[0]) && ReadToken(tail) == Read(token[1..], rest)
    ensures ReadToken(EscapedChar(token[0]) + tail) == Read(token, rest)
  {
    var s := EscapedChar(token[0]) + tail;
    assert [token[0]] + token[1..] == token;
    if IsSpecial(token[0]) {
      assert s[0] == '\\' && s[1] == token[0] && s[2..] == tail;
    } else {
      assert s[0] == token[0] && s[1..] == tail;
    }
  }

  lemma ExpectPrefix(prefix: string, rest: string)
    ensures Expect(prefix, prefix + rest) == Some(rest)
  {
  }

  lemma ClauseParses(token: string, rest: string)
    requires IsWord(token)
    ensures ParseClause(Clause(Escape(token)) + rest) == Some(Read(token, rest))
  {
    var e := Escape(token);
    var tail2 := ")" + rest;
    var tail1 := " OR text:" + (e + tail2);
    ClauseRegroup(e, rest);
    ExpectPrefix("(title:", e + tail1);
    ReadEscaped(token, tail1);
    ExpectPrefix(" OR text:", e + tail2);
    ReadEscaped(token, tail2);
    ExpectPrefix(")", rest);
  }

  lemma ClauseRegroup(e: string, rest: string)
    ensures Clause(e) + rest == "(title:" + (e + (" OR text:" + (e + (")" + rest))))
  {
    Regroup("(title:", e, " OR text:", ")", rest);
  }

  lemma Regroup(a: string, e: string, b: string, c: string, rest: string)
    ensures a + e + b + e + c + rest == a + (e + (b + (e + (c + rest))))
  {
  }

  /** In front of anything, the clause is read as this token. */
  ghost predicate ParsesAs(clause: string, token: string) {
    forall rest {:trigger ParseClause(clause + rest)} :: ParseClause(clause + rest) == Some(Read(token, rest))
  }

  lemma WordClauseParses(token: string)
    requires IsWord(token)
    ensures ParsesAs(Clause(Escape(token)), token)
  {
    forall rest
      ensures ParseClause(Clause(Escape(token)) + rest) == Some(Read(token, rest))
    {
      ClauseParses(token, rest);
    }
  }

  lemma ParseMore(s: string, token: string, rest: string)
    requires ParseClause(s) == Some(Read(token, " AND " + rest))
    ensures ParseQuery(rest).Some? ==> ParseQuery(s) == Some([token] + ParseQuery(rest).value)
  {
    ExpectPrefix(" AND ", rest);
  }

  lemma JoinUnfolds(clauses: seq<string>)
    requires |clauses| > 1
    ensures Join(clauses) == clauses[0] + (" AND " + Join(clauses[1..]))
  {
  }

  lemma ParseFirst(s: string, clause: string, rest: string, tokens: seq<string>)
    requires tokens != [] && ParsesAs(clause, tokens[0])
    requires s == clause + (" AND " + rest) && ParseQuery(rest) == Some(tokens[1..])
    ensures ParseQuery(s) == Some(tokens)
  {
    var tail := " AND " + rest;
    assert ParseClause(clause + tail) == Some(Read(tokens[0], tail));
    ParseMore(s, tokens[0], rest);
    HeadAndTail(tokens);
  }

  lemma HeadAndTail<T>(s: seq<T>)
    requires s != []
    ensures [s[0]] + s[1..] == s
  {
  }

  lemma ParseOnly(clause: string, token: string)
    requires ParsesAs(clause, token)
    ensures ParseQuery(clause) == Some([token])
  {
    assert clause + "" == clause;
    assert ParseClause(clause) == Some(Read(token, ""));
  }

  lemma {:induction false} JoinParses(tokens: seq<string>, clauses: seq<string>)
    requires tokens != [] && |clauses| == |tokens|
    requires forall i :: 0 <= i < |tokens| ==> ParsesAs(clauses[i], tokens[i])
    ensures ParseQuery(Join(clauses)) == Some(tokens)
    decreases |tokens|
  {
    assert ParsesAs(clauses[0], tokens[0]);
    if |tokens| == 1 {
      ParseOnly(clauses[0], tokens[0]);
      assert tokens == [tokens[0]];
    } else {
      JoinParses(tokens[1..], clauses[1..]);
      JoinUnfolds(clauses);
      ParseFirst(Join(clauses), clauses[0], Join(clauses[1..]), tokens);
    }
  }

  /**
   For every input there is a query exactly when the input has a word, and
   parsing it gives back the lowercased words in their order.
   */
  lemma QueryRoundTrip(input: string, lower: string -> string)
    requires KeepsWords(lower)
    ensures BuildQuery(input, lower).None? <==> SplitWhitespace(input) == []
    ensures BuildQuery(input, lower).Some? ==>
              ParseQuery(BuildQuery(input, lower).value) == Some(Map(SplitWhitespace(input), lower))
  {
    var tokens := Map(SplitWhitespace(input), lower);
    if tokens != [] {
      var clauses := Map(tokens, (t: string) => Clause(Escape(t)));
      forall i | 0 <= i < |tokens|
        ensures ParsesAs(clauses[i], tokens[i])
      {
        assert SplitWhitespace(input)[i] in SplitWhitespace(input);
        WordClauseParses(tokens[i]);
      }
      JoinParses(tokens, clauses);
    }
  }

  // ---------- Words and white space ----------

  /** The words of an input, in order, with all white space between them dropped. */
  lemma {:induction false} WordsCoverInput(s: string)
    ensures Concat(SplitWhitespace(s)) == Filter(s, c => !IsWhitespace(c))
    decreases |s|
  {
    if s != "" {
      if IsWhitespace(s[0]) {
        WordsCoverInput(s[1..]);
      } else {
        var w := Word(s);
        WordsCoverInput(s[|w|..]);
        FilterConcat(w, s[|w|..], c => !IsWhitespace(c));
        assert w + s[|w|..] == s;
        FilterAll(w, c => !IsWhitespace(c));
      }
    }
  }

  function Concat(parts: seq<string>): string {
    if parts == [] then "" else parts[0] + Concat(parts[1..])
  }

  // ---------- Hits ----------

  function FirstOccurrences(hits: seq<Option<Id>>): (r: seq<Id>)
    ensures NoDup(r) && forall x :: x in r <==> Some(x) in hits
  {
    if hits == [] then []
    else
      var before := FirstOccurrences(hits[..|hits| - 1]);
      var last := hits[|hits| - 1];
      assert hits == hits[..|hits| - 1] + [last];
      if last.Some? && last.value !in before then before + [last.value] else before
  }

  /** The ids of the engine's hits: those that carry one, each at its first place. */
  method UniqueHits(hits: seq<Option<Id>>) returns (ids: seq<Id>)
    ensures ids == FirstOccurrences(hits)
    ensures NoDup(ids) && forall x :: x in ids <==> Some(x) in hits
  {
    var seen: set<Id> := {};
    ids := [];
    for i := 0 to |hits|
      invariant ids == FirstOccurrences(hits[..i])
      invariant seen == Elems(ids)
    {
      assert hits[..i + 1][..i] == hits[..i];
      match hits[i] {
        case None =>
        case Some(id) =>
          if id !in seen {
            seen := seen + {id};
            ids := ids + [id];
          }
      }
    }
    assert hits[..|hits|] == hits;
  }
}
