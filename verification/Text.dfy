/**
 Strings as the services use them: ordering by code point, sorted(set(...)), splitting and joining,
 and the canonical permission syntax.
 */
module Text {
  import opened Options

  // ---------------------------------------------------------------------------------------------
  // Order and sorted(set(...))
  // ---------------------------------------------------------------------------------------------

  /** Python's `<` on str. */
  predicate Less(a: string, b: string) {
    b != [] && (a == [] || a[0] < b[0] || (a[0] == b[0] && Less(a[1..], b[1..])))
  }

  predicate Ascending(s: seq<string>) {
    forall i, j :: 0 <= i < j < |s| ==> Less(s[i], s[j])
  }

  lemma {:induction false} LessIsTotal(a: string, b: string)
    ensures a == b || Less(a, b) || Less(b, a)
    ensures !(Less(a, b) && Less(b, a)) && !Less(a, a)
  {
    if a != [] && b != [] {
      LessIsTotal(a[1..], b[1..]);
      LessIsTotal(a[1..], a[1..]);
      assert a == [a[0]] + a[1..] && b == [b[0]] + b[1..];
    } else if a != [] {
      LessIsTotal(a[1..], a[1..]);
    }
  }

  lemma {:induction false} LessIsTransitive(a: string, b: string, c: string)
    requires Less(a, b) && Less(b, c)
    ensures Less(a, c)
  {
    if a != [] && a[0] == b[0] && b[0] == c[0] {
      LessIsTransitive(a[1..], b[1..], c[1..]);
    }
  }

  function Insert(x: string, s: seq<string>): (r: seq<string>)
    requires Ascending(s)
    ensures Ascending(r)
    ensures forall y :: y in r <==> y == x || y in s
  {
    if s == [] then [x]
    else if s[0] == x then s
    else if Less(x, s[0]) then
      assert forall j :: 1 <= j < |s| ==> Less(x, s[j]) by {
        forall j | 1 <= j < |s| ensures Less(x, s[j]) { LessIsTransitive(x, s[0], s[j]); }
      }
      [x] + s
    else
      assert Less(s[0], x) by { LessIsTotal(x, s[0]); }
      assert forall j :: 1 <= j < |s| ==> s[j] == s[1..][j - 1];
      var rest := Insert(x, s[1..]);
      assert forall y :: y in rest ==> Less(s[0], y);
      [s[0]] + rest
  }

  /** sorted(set(values)). */
  function SortedSet(values: seq<string>): (r: seq<string>)
    ensures Ascending(r)
    ensures forall x :: x in r <==> x in values
  {
    if values == [] then [] else Insert(values[0], SortedSet(values[1..]))
  }

  /** An ascending list is determined by its members, so sorted(set(...)) is too. */
  lemma {:induction false} AscendingIsUnique(a: seq<string>, b: seq<string>)
    requires Ascending(a) && Ascending(b)
    requires forall x :: x in a <==> x in b
    ensures a == b
  {
    if a == [] {
      assert forall i :: 0 <= i < |b| ==> b[i] in b;
    } else {
      assert a[0] in b && (b != [] ==> b[0] in a);
      LessIsTotal(a[0], b[0]);
      assert a[0] == b[0];
      forall x ensures x in a[1..] <==> x in b[1..] {
        LessIsTotal(a[0], a[0]);
        assert x in a <==> x == a[0] || x in a[1..];
        assert x in b <==> x == b[0] || x in b[1..];
        if x in a[1..] { assert Less(a[0], x); }
        if x in b[1..] { assert Less(b[0], x); }
      }
      AscendingIsUnique(a[1..], b[1..]);
    }
  }

  // ---------------------------------------------------------------------------------------------
  // Splitting and joining
  // ---------------------------------------------------------------------------------------------

  /** separator.join(parts) for a one-character separator. */
  function Join(parts: seq<string>, separator: char): string {
    if parts == [] then ""
    else if |parts| == 1 then parts[0]
    else parts[0] + [separator] + Join(parts[1..], separator)
  }

  /** text.split(separator) for a one-character separator. */
  function Split(text: string, separator: char): (parts: seq<string>)
    ensures parts != []
    ensures forall p :: p in parts ==> separator !in p
  {
    if text == "" then [""]
    else
      var rest := Split(text[1..], separator);
      if text[0] == separator then [""] + rest
      else [[text[0]] + rest[0]] + rest[1..]
  }

  lemma {:induction false} JoinOfSplit(text: string, separator: char)
    ensures Join(Split(text, separator), separator) == text
  {
    if text != "" {
      JoinOfSplit(text[1..], separator);
      var rest := Split(text[1..], separator);
      if text[0] == separator {
        assert ([""] + rest)[1..] == rest;
      } else {
        assert ([[text[0]] + rest[0]] + rest[1..])[1..] == rest[1..];
      }
      assert text == [text[0]] + text[1..];
    }
  }

  lemma {:induction false} SplitOfJoin(parts: seq<string>, separator: char)
    requires parts != []
    requires forall p :: p in parts ==> separator !in p
    ensures Split(Join(parts, separator), separator) == parts
    decreases |Join(parts, separator)|
  {
    var text := Join(parts, separator);
    if parts[0] == "" {
      if |parts| > 1 {
        assert text == [separator] + Join(parts[1..], separator);
        assert text[1..] == Join(parts[1..], separator);
        SplitOfJoin(parts[1..], separator);
        assert parts == [""] + parts[1..];
      }
    } else {
      var shorter := [parts[0][1..]] + parts[1..];
      assert shorter[1..] == parts[1..];
      assert parts[0] in parts;
      assert text[0] == parts[0][0] != separator;
      assert text[1..] == Join(shorter, separator);
      SplitOfJoin(shorter, separator);
      assert [text[0]] + shorter[0] == parts[0];
      assert parts == [parts[0]] + parts[1..];
    }
  }

  /** The characters at which str.split() without an argument separates words. */
  predicate IsSpace(c: char) {
    || '\t' <= c <= '\r' || '\U{1c}' <= c <= ' ' || c == '\U{85}' || c == '\U{a0}' || c == '\U{1680}'
    || '\U{2000}' <= c <= '\U{200a}' || c == '\U{2028}' || c == '\U{2029}' || c == '\U{202f}'
    || c == '\U{205f}' || c == '\U{3000}'
  }

  predicate IsWord(w: string) {
    w != "" && forall i :: 0 <= i < |w| ==> !IsSpace(w[i])
  }

  /** The length of the run of non-space characters at the start of text. */
  function WordLength(text: string): (n: nat)
    ensures n <= |text|
    ensures forall i :: 0 <= i < n ==> !IsSpace(text[i])
    ensures n < |text| ==> IsSpace(text[n])
  {
    if text == "" || IsSpace(text[0]) then 0 else
      var n := WordLength(text[1..]);
      assert forall i :: 1 <= i <= n ==> text[i] == text[1..][i - 1];
      1 + n
  }

  /** text.split(): maximal runs of non-space characters. */
  function Words(text: string): (words: seq<string>)
    ensures forall w :: w in words ==> IsWord(w)
    decreases |text|
  {
    if text == "" then []
    else if IsSpace(text[0]) then Words(text[1..])
    else
      var n := WordLength(text);
      [text[..n]] + Words(text[n..])
  }

  lemma {:induction false} WordsOfJoin(words: seq<string>)
    requires forall w :: w in words ==> IsWord(w)
    ensures Words(Join(words, ' ')) == words
  {
    if words != [] {
      var text, w := Join(words, ' '), words[0];
      var n := WordLength(text);
      assert w in words;
      assert forall i :: 0 <= i < |w| ==> text[i] == w[i];
      assert |words| > 1 ==> text[|w|] == ' ';
      assert n == |w|;
      assert text[..n] == w;
      if |words| > 1 {
        assert text[n..] == [' '] + Join(words[1..], ' ');
        assert text[n..][1..] == Join(words[1..], ' ');
        WordsOfJoin(words[1..]);
      } else {
        assert text[n..] == "";
      }
      assert words == [w] + words[1..];
    }
  }

  // ---------------------------------------------------------------------------------------------
  // Canonical permissions
  // ---------------------------------------------------------------------------------------------

  predicate IsLowerAlphanumeric(c: char) {
    'a' <= c <= 'z' || '0' <= c <= '9'
  }

  predicate IsSegmentChar(c: char) {
    IsLowerAlphanumeric(c) || c == '_' || c == '-'
  }

  predicate IsFirstSegment(s: string) {
    s != "" && forall i :: 0 <= i < |s| ==> IsLowerAlphanumeric(s[i])
  }

  predicate IsSegment(s: string) {
    s != "" && forall i :: 0 <= i < |s| ==> IsSegmentChar(s[i])
  }

  /** A full match of [a-z0-9]+(\.[a-z0-9_-]+){2,}, read off the dot-separated segments. */
  predicate IsCanonicalPermission(p: string) {
    var segments := Split(p, '.');
    && |segments| >= 3
    && IsFirstSegment(segments[0])
    && forall i :: 1 <= i < |segments| ==> IsSegment(segments[i])
  }

  lemma {:induction false} JoinedCharacters(parts: seq<string>, separator: char, c: char)
    requires c in Join(parts, separator)
    ensures c == separator || exists i :: 0 <= i < |parts| && c in parts[i]
  {
    if |parts| > 1 && c !in parts[0] && c != separator {
      JoinedCharacters(parts[1..], separator, c);
      var i :| 0 <= i < |parts[1..]| && c in parts[1..][i];
      assert c in parts[i + 1];
    }
  }

  lemma CanonicalPermissionIsWord(p: string)
    requires IsCanonicalPermission(p)
    ensures IsWord(p) && ':' !in p
  {
    var segments := Split(p, '.');
    JoinOfSplit(p, '.');
    forall c | c in p ensures c == '.' || IsSegmentChar(c) {
      JoinedCharacters(segments, '.', c);
    }
    assert p != "";
    forall i | 0 <= i < |p| ensures !IsSpace(p[i]) {
      assert p[i] in p;
    }
  }

  predicate AllCanonical(values: seq<string>) {
    forall v :: v in values ==> IsCanonicalPermission(v)
  }

  /** validate_permissions; Err(()) is its ValueError. */
  function ValidatePermissions(values: seq<string>): (r: Result<seq<string>, ()>)
    ensures r.Ok? <==> AllCanonical(values)
    ensures r.Ok? ==> Ascending(r.value) && forall v :: v in r.value <==> v in values
  {
    if AllCanonical(values) then Ok(SortedSet(values)) else Err(())
  }

  lemma ValidatedListIsStable(values: seq<string>)
    requires AllCanonical(values) && Ascending(values)
    ensures ValidatePermissions(values) == Ok(values)
  {
    AscendingIsUnique(values, SortedSet(values));
  }

  /**
   Section 3.3 of RFC 6749: printing a validated list as a scope and splitting the scope gives the
   same ascending list back, and validating that again changes nothing.
   */
  lemma ScopeRoundTrip(values: seq<string>)
    requires ValidatePermissions(values).Ok?
    ensures var printed := ValidatePermissions(values).value;
            Words(Join(printed, ' ')) == printed && ValidatePermissions(Words(Join(printed, ' '))) == Ok(printed)
  {
    var printed := ValidatePermissions(values).value;
    forall w | w in printed ensures IsWord(w) {
      CanonicalPermissionIsWord(w);
    }
    WordsOfJoin(printed);
    ValidatedListIsStable(printed);
  }
}
