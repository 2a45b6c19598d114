/** Text normalisation: `" ".join(s.casefold().split())`, stripping, and substring search. */
module Text {
  import opened Schemas

  /** Library code the program calls but does not define. `fold` is case folding, one
      character at a time; `space` is what `split` and `strip` treat as whitespace;
      `ratio` is the similarity of two normalised strings; `fromIso` parses an ISO date. */
  datatype Library = Library(
    fold: char -> string,
    space: char -> bool,
    ratio: (string, string) -> real,
    fromIso: string -> Option<Date>)

  function Casefold(lib: Library, s: string): (r: string)
  {
    if s == "" then "" else lib.fold(s[0]) + Casefold(lib, s[1..])
  }

  /** Length of the run of non-space characters `s` begins with. */
  function WordLength(lib: Library, s: string): (k: nat)
    ensures k <= |s|
    ensures forall i :: 0 <= i < k ==> !lib.space(s[i])
    ensures k < |s| ==> lib.space(s[k])
  {
    if s == "" || lib.space(s[0]) then 0 else 1 + WordLength(lib, s[1..])
  }

  function Split(lib: Library, s: string): (words: seq<string>)
    decreases |s|
  {
    if s == "" then []
    else if lib.space(s[0]) then Split(lib, s[1..])
    else
      var k := WordLength(lib, s);
      [s[..k]] + Split(lib, s[k..])
  }

  function Join(words: seq<string>): string {
    if |words| == 0 then ""
    else if |words| == 1 then words[0]
    else words[0] + " " + Join(words[1..])
  }

  /** Collapses whitespace without folding case. */
  function Collapse(lib: Library, s: string): string {
    Join(Split(lib, s))
  }

  function Normalize(lib: Library, s: string): string {
    Collapse(lib, Casefold(lib, s))
  }

  predicate OccursAt(text: string, part: string, i: nat) {
    i + |part| <= |text| && text[i..i + |part|] == part
  }

  /** Python's `part in text`. */
  predicate Contains(text: string, part: string) {
    exists i: nat | i <= |text| :: OccursAt(text, part, i)
  }

  function Leading(lib: Library, s: string): (k: nat)
    ensures k <= |s|
    ensures forall i :: 0 <= i < k ==> lib.space(s[i])
    ensures k < |s| ==> !lib.space(s[k])
  {
    if s == "" || !lib.space(s[0]) then 0 else 1 + Leading(lib, s[1..])
  }

  function Trailing(lib: Library, s: string): (k: nat)
    ensures k <= |s|
    ensures forall i :: |s| - k <= i < |s| ==> lib.space(s[i])
    ensures k < |s| ==> !lib.space(s[|s| - k - 1])
  {
    if s == "" || !lib.space(s[|s| - 1]) then 0 else 1 + Trailing(lib, s[..|s| - 1])
  }

  /** `s.strip()`: a contiguous slice of `s` that neither begins nor ends with whitespace. */
  function Strip(lib: Library, s: string): (r: string)
    ensures Contains(s, r)
    ensures r != "" ==> !lib.space(r[0]) && !lib.space(r[|r| - 1])
    ensures r == "" <==> forall i :: 0 <= i < |s| ==> lib.space(s[i])
  {
    var rest := s[Leading(lib, s)..];
    var r := rest[..|rest| - Trailing(lib, rest)];
    assert OccursAt(s, r, Leading(lib, s));
    assert rest != "" ==> rest[0] == s[Leading(lib, s)];
    r
  }

  ghost predicate AllSpace(lib: Library, s: string) {
    forall i :: 0 <= i < |s| ==> lib.space(s[i])
  }

  lemma ThreeParts(s: string, k: nat, m: nat)
    requires k <= m <= |s|
    ensures s == s[..k] + s[k..m] + s[m..]
    ensures s[k..][..m - k] == s[k..m]
  {
  }

  lemma EndsAreSpace(lib: Library, s: string, k: nat, m: nat)
    requires k == Leading(lib, s) && m == |s| - Trailing(lib, s[k..]) && k <= m
    ensures AllSpace(lib, s[..k]) && AllSpace(lib, s[m..])
  {
    var rest := s[k..];
    forall i | 0 <= i < |s| - m
      ensures lib.space(s[m..][i])
    {
      assert s[m..][i] == rest[m - k + i];
    }
  }

  /** Stripping takes off whitespace at the ends, and nothing else. */
  lemma StripExact(lib: Library, s: string) returns (a: string, b: string)
    ensures s == a + Strip(lib, s) + b && AllSpace(lib, a) && AllSpace(lib, b)
  {
    var k := Leading(lib, s);
    var m := |s| - Trailing(lib, s[k..]);
    a, b := s[..k], s[m..];
    ThreeParts(s, k, m);
    EndsAreSpace(lib, s, k, m);
  }

  lemma StripIdempotent(lib: Library, s: string)
    ensures Strip(lib, Strip(lib, s)) == Strip(lib, s)
  {
    var r := Strip(lib, s);
    if r != "" {
      assert Leading(lib, r) == 0 && Trailing(lib, r) == 0;
      assert r[0..] == r && r[..|r|] == r;
    }
  }

  // --- normalisation of a slice ---

  lemma {:induction false} CasefoldConcat(lib: Library, a: string, b: string)
    ensures Casefold(lib, a + b) == Casefold(lib, a) + Casefold(lib, b)
  {
    if a == "" {
      assert a + b == b;
    } else {
      CasefoldConcat(lib, a[1..], b);
      assert (a + b)[1..] == a[1..] + b;
    }
  }

  /** How collapsing treats one more character in front. */
  function Prepend(lib: Library, c: char, s: string): string {
    if lib.space(c) then Collapse(lib, s)
    else if s == "" then [c]
    else if !lib.space(s[0]) then [c] + Collapse(lib, s)
    else if Split(lib, s) == [] then [c]
    else [c] + " " + Collapse(lib, s)
  }

  /** Joining words when the first grows by a character in front. */
  lemma JoinGrows(c: char, word: string, rest: seq<string>)
    ensures Join([[c] + word] + rest) == [c] + Join([word] + rest)
  {
    assert ([[c] + word] + rest)[1..] == rest == ([word] + rest)[1..];
    if rest != [] {
      assert ([c] + word) + " " + Join(rest) == [c] + (word + " " + Join(rest));
    }
  }

  /** A character in front of a word joins that word. */
  lemma CollapseWithinWord(lib: Library, c: char, s: string)
    requires !lib.space(c) && s != "" && !lib.space(s[0])
    ensures Collapse(lib, [c] + s) == [c] + Collapse(lib, s)
  {
    var t := [c] + s;
    var k := WordLength(lib, s);
    assert t[1..] == s;
    assert WordLength(lib, t) == 1 + k;
    assert t[1 + k..] == s[k..];
    assert t[..1 + k] == [c] + s[..k];
    JoinGrows(c, s[..k], Split(lib, s[k..]));
  }

  /** A character in front of whitespace, or alone, is a word of its own. */
  lemma CollapseNewWord(lib: Library, c: char, s: string)
    requires !lib.space(c) && (s == "" || lib.space(s[0]))
    ensures Collapse(lib, [c] + s) == if Split(lib, s) == [] then [c] else [c] + " " + Collapse(lib, s)
  {
    var t := [c] + s;
    assert t[1..] == s;
    assert WordLength(lib, t) == 1;
    assert t[..1] == [c];
    assert Split(lib, t) == [[c]] + Split(lib, s);
    assert ([[c]] + Split(lib, s))[1..] == Split(lib, s);
  }

  lemma CollapseCons(lib: Library, c: char, s: string)
    ensures Collapse(lib, [c] + s) == Prepend(lib, c, s)
  {
    if lib.space(c) {
      assert ([c] + s)[1..] == s;
    } else if s != "" && !lib.space(s[0]) {
      CollapseWithinWord(lib, c, s);
    } else {
      CollapseNewWord(lib, c, s);
    }
  }

  lemma {:induction false} SplitEmpty(lib: Library, s: string)
    ensures Split(lib, s) == [] <==> Collapse(lib, s) == ""
    decreases |s|
  {
    if s != "" && lib.space(s[0]) {
      SplitEmpty(lib, s[1..]);
    }
  }

  lemma CollapseConsSuffix(lib: Library, c: char, s: string) returns (d: nat)
    ensures d <= |Collapse(lib, [c] + s)| && Collapse(lib, [c] + s)[d..] == Collapse(lib, s)
  {
    CollapseCons(lib, c, s);
    SplitEmpty(lib, s);
    d := |Collapse(lib, [c] + s)| - |Collapse(lib, s)|;
  }

  /** Dropping a prefix of the text keeps a suffix of the collapsed text. */
  lemma {:induction false} CollapseDropsPrefix(lib: Library, a: string, s: string) returns (i: nat)
    ensures i <= |Collapse(lib, a + s)| && Collapse(lib, a + s)[i..] == Collapse(lib, s)
  {
    if a == "" {
      assert a + s == s;
      i := 0;
    } else {
      var t := a[1..] + s;
      var j := CollapseDropsPrefix(lib, a[1..], s);
      assert a + s == [a[0]] + t;
      var d := CollapseConsSuffix(lib, a[0], t);
      i := d + j;
      assert Collapse(lib, a + s)[i..] == Collapse(lib, a + s)[d..][j..];
    }
  }

  /** Dropping the end of the text keeps a prefix of the collapsed text. */
  lemma {:induction false} CollapseDropsEnd(lib: Library, s: string, b: string)
    ensures Collapse(lib, s) <= Collapse(lib, s + b)
  {
    if s != "" {
      CollapseDropsEnd(lib, s[1..], b);
      assert s == [s[0]] + s[1..];
      assert s + b == [s[0]] + (s[1..] + b);
      CollapseCons(lib, s[0], s[1..]);
      CollapseCons(lib, s[0], s[1..] + b);
      SplitEmpty(lib, s[1..]);
      SplitEmpty(lib, s[1..] + b);
    }
  }

  lemma CollapsedSlice(lib: Library, a: string, v: string, b: string)
    ensures Contains(Collapse(lib, a + (v + b)), Collapse(lib, v))
  {
    var i := CollapseDropsPrefix(lib, a, v + b);
    CollapseDropsEnd(lib, v, b);
    PrefixOfSuffix(Collapse(lib, a + (v + b)), Collapse(lib, v), i);
  }

  lemma PrefixOfSuffix(whole: string, part: string, i: nat)
    requires i <= |whole| && part <= whole[i..]
    ensures Contains(whole, part)
  {
    assert whole[i..i + |part|] == part;
    assert OccursAt(whole, part, i);
  }

  /** A contiguous slice of a text, normalised, is a substring of the normalised text:
      what was copied from a document is always found in it again. */
  lemma NormalizedSlice(lib: Library, text: string, v: string)
    requires Contains(text, v)
    ensures Contains(Normalize(lib, text), Normalize(lib, v))
  {
    var i: nat :| i <= |text| && OccursAt(text, v, i);
    var a, b := text[..i], text[i + |v|..];
    assert text == a + (v + b);
    CasefoldConcat(lib, a, v + b);
    CasefoldConcat(lib, v, b);
    CollapsedSlice(lib, Casefold(lib, a), Casefold(lib, v), Casefold(lib, b));
  }

  lemma SliceOfSlice(t: string, i: nat, n: nat, j: nat, m: nat)
    requires i + n <= |t| && j + m <= n
    ensures t[i..i + n][j..j + m] == t[i + j..i + j + m]
  {
    var whole, part := t[i..i + n], t[i + j..i + j + m];
    forall k | 0 <= k < m
      ensures whole[j..j + m][k] == part[k]
    {
      assert whole[j..j + m][k] == whole[j + k] == t[i + (j + k)];
    }
  }

  lemma ContainsTransitive(t: string, u: string, v: string)
    requires Contains(t, u) && Contains(u, v)
    ensures Contains(t, v)
  {
    var i: nat :| i <= |t| && OccursAt(t, u, i);
    var j: nat :| j <= |u| && OccursAt(u, v, j);
    SliceOfSlice(t, i, |u|, j, |v|);
    assert OccursAt(t, v, i + j);
  }

  // --- text without whitespace that case folding leaves alone ---

  ghost predicate Plain(lib: Library, s: string) {
    forall i :: 0 <= i < |s| ==> !lib.space(s[i]) && lib.fold(s[i]) == [s[i]]
  }

  lemma {:induction false} PlainCasefold(lib: Library, s: string)
    requires Plain(lib, s)
    ensures Casefold(lib, s) == s
  {
    if s != "" {
      PlainCasefold(lib, s[1..]);
    }
  }

  lemma PlainNormalize(lib: Library, s: string)
    requires Plain(lib, s)
    ensures Normalize(lib, s) == s
  {
    PlainCasefold(lib, s);
    var k := WordLength(lib, s);
    assert k == |s|;
    if s != "" {
      assert s[..k] == s && s[k..] == "";
      assert Split(lib, s) == [s];
    }
  }

  lemma PlainStrip(lib: Library, s: string)
    requires Plain(lib, s)
    ensures Strip(lib, s) == s
  {
    assert s[0..] == s && s[..|s|] == s;
  }

  // --- what normalisation is, written out ---

  /** The characters that are not whitespace, in order. */
  function Letters(lib: Library, s: string): string {
    if s == "" then "" else (if lib.space(s[0]) then "" else [s[0]]) + Letters(lib, s[1..])
  }

  lemma {:induction false} LettersConcat(lib: Library, a: string, b: string)
    ensures Letters(lib, a + b) == Letters(lib, a) + Letters(lib, b)
  {
    if a == "" {
      assert a + b == b;
    } else {
      var t := a + b;
      LettersConcat(lib, a[1..], b);
      assert t[0] == a[0] && t[1..] == a[1..] + b;
      assert Letters(lib, t) == (if lib.space(a[0]) then "" else [a[0]]) + (Letters(lib, a[1..]) + Letters(lib, b));
    }
  }

  /** Words separated by single spaces: no other whitespace, none at the ends, none doubled. */
  ghost predicate Spaced(lib: Library, s: string) {
    && (forall i :: 0 <= i < |s| && lib.space(s[i]) ==> s[i] == ' ')
    && (s != "" ==> !lib.space(s[0]) && !lib.space(s[|s| - 1]))
    && forall i :: 0 <= i < |s| - 1 ==> !(lib.space(s[i]) && lib.space(s[i + 1]))
  }

  /** Collapsing keeps all that is not whitespace, in order, and separates words by a space. */
  lemma {:induction false} CollapseExact(lib: Library, s: string)
    requires lib.space(' ')
    ensures Letters(lib, Collapse(lib, s)) == Letters(lib, s)
    ensures Spaced(lib, Collapse(lib, s))
    ensures s != "" && !lib.space(s[0]) ==> Collapse(lib, s) != "" && Collapse(lib, s)[0] == s[0]
  {
    if s != "" {
      var c, rest := s[0], s[1..];
      assert s == [c] + rest;
      CollapseExact(lib, rest);
      SplitEmpty(lib, rest);
      CollapseCons(lib, c, rest);
      LettersConcat(lib, [c], Collapse(lib, rest));
      LettersConcat(lib, [c] + " ", Collapse(lib, rest));
      LettersConcat(lib, [c], " ");
    }
  }

  /** Two neighbouring characters of a text are joined in the collapsed text, and whitespace
      between two words leaves a space: the words stay what they were. */
  lemma CollapseKeepsWords(lib: Library, c: char, s: string)
    requires !lib.space(c)
    ensures s != "" && !lib.space(s[0]) ==> Collapse(lib, [c] + s) == [c] + Collapse(lib, s)
    ensures s != "" && lib.space(s[0]) && Collapse(lib, s) != "" ==> Collapse(lib, [c] + s) == [c] + " " + Collapse(lib, s)
    ensures Collapse(lib, s) == "" ==> Collapse(lib, [c] + s) == [c]
  {
    CollapseCons(lib, c, s);
    SplitEmpty(lib, s);
    if s != "" && !lib.space(s[0]) {
      CollapseCons(lib, s[0], s[1..]);
      assert s == [s[0]] + s[1..];
    }
  }

  lemma CollapseSkips(lib: Library, c: char, s: string)
    requires lib.space(c)
    ensures Collapse(lib, [c] + s) == Collapse(lib, s)
  {
    CollapseCons(lib, c, s);
  }

  /** Normalising a text is folding each character and collapsing the result. */
  lemma CasefoldExact(lib: Library, c: char, s: string)
    ensures Casefold(lib, "") == ""
    ensures Casefold(lib, [c] + s) == lib.fold(c) + Casefold(lib, s)
  {
    assert ([c] + s)[1..] == s;
  }

  /** A normalised text has the folded text's characters but for the whitespace, and single
      spaces between its words. */
  lemma NormalizeExact(lib: Library, s: string)
    requires lib.space(' ')
    ensures Letters(lib, Normalize(lib, s)) == Letters(lib, Casefold(lib, s)) && Spaced(lib, Normalize(lib, s))
  {
    CollapseExact(lib, Casefold(lib, s));
  }
}
