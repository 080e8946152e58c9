/**
 ASCII string primitives shared by the whole pipeline, and `clean_string`
 (src/utils.py), the normaliser every other stage runs its input through.

 Python's `str.isspace`, `str.upper`, `str.strip` and `str.split()` are
 restricted here to ASCII characters; strings are `seq<char>`.
 */
module Text {

  // ---------------------------------------------------------------------------
  // Character classes
  // ---------------------------------------------------------------------------

  /** Python whitespace within ASCII: space, TAB..CR (9-13) and the separators 0x1C-0x1F. */
  predicate IsSpace(c: char) {
    c == ' ' || 9 <= c as int <= 13 || 28 <= c as int <= 31
  }

  predicate IsDigit(c: char) {
    '0' <= c <= '9'
  }

  predicate IsLower(c: char) {
    'a' <= c <= 'z'
  }

  predicate IsLetter(c: char) {
    'A' <= c <= 'Z' || IsLower(c)
  }

  /** The regex word class `\w` within ASCII: letters, digits and underscore. */
  predicate IsWordChar(c: char) {
    IsLetter(c) || IsDigit(c) || c == '_'
  }

  function UpperChar(c: char): (u: char)
    ensures IsSpace(u) <==> IsSpace(c)
    ensures IsWordChar(u) <==> IsWordChar(c)
    ensures IsDigit(u) <==> IsDigit(c)
    ensures !IsLower(u)
    ensures !IsLower(c) ==> u == c
  {
    if IsLower(c) then (c as int - 32) as char else c
  }

  function LowerChar(c: char): (l: char)
    ensures 'A' <= c <= 'Z' ==> IsLower(l)
    ensures !('A' <= c <= 'Z') ==> l == c
  {
    if 'A' <= c <= 'Z' then (c as int + 32) as char else c
  }

  // ---------------------------------------------------------------------------
  // Whole-string case mapping
  // ---------------------------------------------------------------------------

  /** Python's `str.upper()` on ASCII. */
  function Upper(s: string): (u: string)
    ensures |u| == |s|
    ensures forall i :: 0 <= i < |s| ==> u[i] == UpperChar(s[i])
  {
    seq(|s|, i requires 0 <= i < |s| => UpperChar(s[i]))
  }

  /** Python's `str.lower()` on ASCII. */
  function Lower(s: string): (l: string)
    ensures |l| == |s|
    ensures forall i :: 0 <= i < |s| ==> l[i] == LowerChar(s[i])
  {
    seq(|s|, i requires 0 <= i < |s| => LowerChar(s[i]))
  }

  predicate NoLower(s: string) {
    forall i :: 0 <= i < |s| ==> !IsLower(s[i])
  }

  lemma UpperIdempotent(s: string)
    ensures Upper(Upper(s)) == Upper(s)
  {
  }

  lemma UpperOfNoLower(s: string)
    requires NoLower(s)
    ensures Upper(s) == s
  {
  }

  lemma Assoc<T>(a: seq<T>, b: seq<T>, c: seq<T>)
    ensures a + b + c == a + (b + c)
  {
  }

  lemma UpperConcat(a: string, b: string)
    ensures Upper(a + b) == Upper(a) + Upper(b)
  {
  }

  // ---------------------------------------------------------------------------
  // strip()
  // ---------------------------------------------------------------------------

  predicate AllSpace(s: string) {
    forall i :: 0 <= i < |s| ==> IsSpace(s[i])
  }

  /** Python's `str.lstrip()`: the suffix left after dropping leading whitespace. */
  function TrimLeft(s: string): (r: string)
    ensures |r| <= |s| && r == s[|s| - |r|..]
    ensures AllSpace(s[..|s| - |r|])
    ensures |r| == 0 || !IsSpace(r[0])
  {
    if |s| > 0 && IsSpace(s[0]) then TrimLeft(s[1..]) else s
  }

  /** Python's `str.rstrip()`: the prefix left after dropping trailing whitespace. */
  function TrimRight(s: string): (r: string)
    ensures |r| <= |s| && r == s[..|r|]
    ensures AllSpace(s[|r|..])
    ensures |r| == 0 || !IsSpace(r[|r| - 1])
  {
    if |s| > 0 && IsSpace(s[|s| - 1]) then TrimRight(s[..|s| - 1]) else s
  }

  /** Python's `str.strip()`. */
  function Strip(s: string): string {
    TrimRight(TrimLeft(s))
  }

  /** Neither end of `s` is whitespace. */
  predicate Trimmed(s: string) {
    |s| == 0 || (!IsSpace(s[0]) && !IsSpace(s[|s| - 1]))
  }

  lemma StripTrims(s: string)
    ensures Trimmed(Strip(s))
  {
    var l := TrimLeft(s);
    var r := TrimRight(l);
    if |r| > 0 {
      assert r[0] == l[0];
    }
  }

  lemma StripOfTrimmed(s: string)
    requires Trimmed(s)
    ensures Strip(s) == s
  {
  }

  /** `lstrip` removes exactly the leading whitespace: a whitespace prefix followed by a non-space is the one it drops. */
  lemma {:induction false} TrimLeftUnique(s: string, k: nat)
    requires k <= |s| && AllSpace(s[..k])
    requires k == |s| || !IsSpace(s[k])
    ensures TrimLeft(s) == s[k..]
    decreases k
  {
    if k > 0 {
      assert s[..k][0] == s[0];
      assert s[1..][..k - 1] == s[..k][1..];
      assert k - 1 < |s[1..]| ==> s[1..][k - 1] == s[k];
      TrimLeftUnique(s[1..], k - 1);
      assert s[1..][k - 1..] == s[k..];
    }
  }

  /** `rstrip` removes exactly the trailing whitespace: a whitespace suffix after a non-space is the one it drops. */
  lemma {:induction false} TrimRightUnique(s: string, n: nat)
    requires n <= |s| && AllSpace(s[n..])
    requires n == 0 || !IsSpace(s[n - 1])
    ensures TrimRight(s) == s[..n]
    decreases |s| - n
  {
    if n < |s| {
      var t := s[..|s| - 1];
      assert s[n..][|s| - 1 - n] == s[|s| - 1];
      assert t[n..] == s[n..][..|s| - 1 - n];
      assert n > 0 ==> t[n - 1] == s[n - 1];
      TrimRightUnique(t, n);
      assert t[..n] == s[..n];
    }
  }

  /** `rstrip` drops exactly a whitespace run after a word that ends in a non-space. */
  lemma TrimRightPadded(w: string, gap: string)
    requires AllSpace(gap) && |w| > 0 && !IsSpace(w[|w| - 1])
    ensures TrimRight(w + gap) == w
  {
    var s := w + gap;
    assert s[|w|..] == gap;
    TrimRightUnique(s, |w|);
    assert s[..|w|] == w;
  }

  /** `lstrip` drops exactly a whitespace run before a word that starts with a non-space. */
  lemma TrimLeftPadded(gap: string, w: string)
    requires AllSpace(gap) && |w| > 0 && !IsSpace(w[0])
    ensures TrimLeft(gap + w) == w
  {
    var s := gap + w;
    assert s[..|gap|] == gap;
    TrimLeftUnique(s, |gap|);
    assert s[|gap|..] == w;
  }

  /** Text that is not all whitespace keeps its first character under `rstrip`. */
  lemma TrimRightCons(s: string)
    requires !AllSpace(s)
    ensures TrimRight(s) == [s[0]] + TrimRight(s[1..])
  {
    var r := TrimRight(s[1..]);
    var n := |r| + 1;
    assert s[n..] == s[1..][|r|..];
    assert |r| > 0 ==> s[n - 1] == r[|r| - 1];
    assert |r| == 0 ==> !IsSpace(s[0]) by {
      if |r| == 0 {
        assert forall i :: 1 <= i < |s| ==> s[i] == s[1..][|r|..][i - 1];
      }
    }
    TrimRightUnique(s, n);
    assert s[..n] == [s[0]] + s[1..][..|r|];
  }

  /** Stripping commutes with upper-casing, which never creates or removes whitespace. */
  lemma StripUpper(s: string)
    ensures Strip(Upper(s)) == Upper(Strip(s))
  {
    TrimLeftUpper(s);
    TrimRightUpper(TrimLeft(s));
  }

  lemma TrimLeftUpper(s: string)
    ensures TrimLeft(Upper(s)) == Upper(TrimLeft(s))
    decreases |s|
  {
    if |s| > 0 && IsSpace(s[0]) {
      assert Upper(s)[1..] == Upper(s[1..]);
      TrimLeftUpper(s[1..]);
    }
  }

  lemma TrimRightUpper(s: string)
    ensures TrimRight(Upper(s)) == Upper(TrimRight(s))
    decreases |s|
  {
    if |s| > 0 && IsSpace(s[|s| - 1]) {
      assert Upper(s)[..|s| - 1] == Upper(s[..|s| - 1]);
      TrimRightUpper(s[..|s| - 1]);
    }
  }

  // ---------------------------------------------------------------------------
  // split() and join()
  // ---------------------------------------------------------------------------

  /** A piece produced by `str.split()`: non-empty, without whitespace. */
  predicate IsToken(w: string) {
    |w| > 0 && forall i :: 0 <= i < |w| ==> !IsSpace(w[i])
  }

  predicate AllTokens(ws: seq<string>) {
    forall k :: 0 <= k < |ws| ==> IsToken(ws[k])
  }

  /** Length of the leading run of non-whitespace characters. */
  function TokenLen(s: string): (n: nat)
    ensures n <= |s|
    ensures forall i :: 0 <= i < n ==> !IsSpace(s[i])
    ensures n == |s| || IsSpace(s[n])
  {
    if |s| == 0 || IsSpace(s[0]) then 0 else 1 + TokenLen(s[1..])
  }

  /** Python's `str.split()` with no separator: the maximal non-whitespace runs, in order. */
  function Split(s: string): (ws: seq<string>)
    ensures AllTokens(ws)
    decreases |s|
  {
    if |s| == 0 then []
    else if IsSpace(s[0]) then Split(s[1..])
    else
      var n := TokenLen(s);
      [s[..n]] + Split(s[n..])
  }

  /** Python's `sep.join(parts)`. */
  function Join(parts: seq<string>, sep: string): string {
    if |parts| == 0 then ""
    else if |parts| == 1 then parts[0]
    else parts[0] + sep + Join(parts[1..], sep)
  }

  function UpperAll(ws: seq<string>): (us: seq<string>)
    ensures |us| == |ws|
    ensures forall k :: 0 <= k < |ws| ==> us[k] == Upper(ws[k])
  {
    seq(|ws|, k requires 0 <= k < |ws| => Upper(ws[k]))
  }

  lemma UpperAllTokens(ws: seq<string>)
    requires AllTokens(ws)
    ensures AllTokens(UpperAll(ws))
  {
    forall k | 0 <= k < |ws|
      ensures IsToken(UpperAll(ws)[k])
    {
      assert UpperAll(ws)[k] == Upper(ws[k]);
    }
  }

  lemma {:induction false} UpperJoin(ws: seq<string>)
    ensures Upper(Join(ws, " ")) == Join(UpperAll(ws), " ")
    decreases |ws|
  {
    if |ws| > 1 {
      UpperJoin(ws[1..]);
      assert UpperAll(ws)[1..] == UpperAll(ws[1..]);
      UpperConcat(ws[0] + " ", Join(ws[1..], " "));
      UpperConcat(ws[0], " ");
    }
  }

  /** A run of characters with every whitespace character a single interior space. */
  predicate SingleSpaced(s: string) {
    forall i :: 0 <= i < |s| && IsSpace(s[i]) ==>
      s[i] == ' ' && 0 < i < |s| - 1 && !IsSpace(s[i + 1])
  }

  lemma {:induction false} JoinTokensSingleSpaced(ws: seq<string>)
    requires AllTokens(ws)
    ensures SingleSpaced(Join(ws, " "))
    ensures |Join(ws, " ")| == 0 <==> |ws| == 0
    decreases |ws|
  {
    if |ws| > 1 {
      var w := ws[0];
      var rest := Join(ws[1..], " ");
      JoinTokensSingleSpaced(ws[1..]);
      var r := w + " " + rest;
      assert Join(ws, " ") == r;
      forall i | 0 <= i < |r| && IsSpace(r[i])
        ensures r[i] == ' ' && 0 < i < |r| - 1 && !IsSpace(r[i + 1])
      {
        if i == |w| {
          assert r[i + 1] == rest[0];
          assert rest[0] == Join(ws[1..], " ")[0];
          if |ws[1..]| == 1 {
            assert rest == ws[1];
          } else {
            assert rest[0] == ws[1][0];
          }
        } else if i > |w| {
          assert r[i] == rest[i - |w| - 1];
        }
      }
    } else if |ws| == 1 {
      assert Join(ws, " ") == ws[0];
    }
  }

  lemma SingleSpacedIsTrimmed(s: string)
    requires SingleSpaced(s)
    ensures Trimmed(s)
  {
  }

  /** The token length of a token followed by nothing or by whitespace is its length. */
  lemma {:induction false} TokenLenOfToken(w: string, t: string)
    requires IsToken(w)
    requires |t| == 0 || IsSpace(t[0])
    ensures TokenLen(w + t) == |w|
    decreases |w|
  {
    if |w| > 1 {
      assert (w + t)[1..] == w[1..] + t;
      TokenLenOfToken(w[1..], t);
    } else {
      assert (w + t)[1..] == t;
    }
  }

  /** split() undoes a single-space join of tokens. */
  lemma {:induction false} SplitJoin(ws: seq<string>)
    requires AllTokens(ws)
    ensures Split(Join(ws, " ")) == ws
    decreases |ws|
  {
    if |ws| == 1 {
      TokenLenOfToken(ws[0], "");
      assert ws[0] + "" == ws[0];
      var w := ws[0];
      assert w[..|w|] == w;
      assert w[|w|..] == "";
    } else if |ws| > 1 {
      var w := ws[0];
      var tail := " " + Join(ws[1..], " ");
      var s := w + tail;
      assert Join(ws, " ") == s;
      TokenLenOfToken(w, tail);
      assert s[..|w|] == w;
      assert s[|w|..] == tail;
      assert tail[1..] == Join(ws[1..], " ");
      SplitJoin(ws[1..]);
      assert Split(tail) == Split(Join(ws[1..], " "));
      assert ws == [w] + ws[1..];
    }
  }

  /** Trailing whitespace never changes what split() returns. */
  lemma {:induction false} SplitSpaceSuffix(s: string, c: char)
    requires IsSpace(c)
    ensures Split(s + [c]) == Split(s)
    decreases |s|
  {
    if |s| == 0 {
      assert (s + [c])[1..] == [];
    } else if IsSpace(s[0]) {
      assert (s + [c])[1..] == s[1..] + [c];
      SplitSpaceSuffix(s[1..], c);
    } else {
      var n := TokenLen(s);
      TokenLenAppendSpace(s, c);
      assert (s + [c])[..n] == s[..n];
      assert (s + [c])[n..] == s[n..] + [c];
      SplitSpaceSuffix(s[n..], c);
    }
  }

  lemma {:induction false} TokenLenAppendSpace(s: string, c: char)
    requires IsSpace(c)
    ensures TokenLen(s + [c]) == TokenLen(s)
    decreases |s|
  {
    if |s| > 0 && !IsSpace(s[0]) {
      assert (s + [c])[1..] == s[1..] + [c];
      TokenLenAppendSpace(s[1..], c);
    }
  }

  lemma {:induction false} SplitTrimRight(s: string)
    ensures Split(TrimRight(s)) == Split(s)
    decreases |s|
  {
    if |s| > 0 && IsSpace(s[|s| - 1]) {
      var p := s[..|s| - 1];
      assert s == p + [s[|s| - 1]];
      SplitSpaceSuffix(p, s[|s| - 1]);
      SplitTrimRight(p);
    }
  }

  lemma {:induction false} SplitTrimLeft(s: string)
    ensures Split(TrimLeft(s)) == Split(s)
    decreases |s|
  {
    if |s| > 0 && IsSpace(s[0]) {
      SplitTrimLeft(s[1..]);
    }
  }

  lemma SplitStrip(s: string)
    ensures Split(Strip(s)) == Split(s)
  {
    SplitTrimRight(TrimLeft(s));
    SplitTrimLeft(s);
  }

  lemma {:induction false} TokenLenUpper(s: string)
    ensures TokenLen(Upper(s)) == TokenLen(s)
    decreases |s|
  {
    if |s| > 0 && !IsSpace(s[0]) {
      assert Upper(s)[1..] == Upper(s[1..]);
      TokenLenUpper(s[1..]);
    }
  }

  /** Upper-casing commutes with cutting a string in two. */
  lemma UpperSlices(s: string, n: nat)
    requires n <= |s|
    ensures Upper(s)[..n] == Upper(s[..n])
    ensures Upper(s)[n..] == Upper(s[n..])
  {
  }

  lemma UpperAllCons(w: string, ws: seq<string>)
    ensures UpperAll([w] + ws) == [Upper(w)] + UpperAll(ws)
  {
  }

  /** Upper-casing a string upper-cases its tokens and keeps them apart. */
  lemma {:induction false} SplitUpper(s: string)
    ensures Split(Upper(s)) == UpperAll(Split(s))
    decreases |s|
  {
    if |s| > 0 {
      if IsSpace(s[0]) {
        UpperSlices(s, 1);
        SplitUpper(s[1..]);
      } else {
        var n := TokenLen(s);
        TokenLenUpper(s);
        UpperSlices(s, n);
        SplitUpper(s[n..]);
        UpperAllCons(s[..n], Split(s[n..]));
      }
    }
  }

  /** `a` followed by at least one more part: the separator comes right after `a`. */
  lemma JoinOfHead(a: string, rest: seq<string>, sep: string)
    requires |rest| > 0
    ensures Join([a] + rest, sep) == a + sep + Join(rest, sep)
  {
    assert ([a] + rest)[1..] == rest;
  }

  /** Joining two non-empty lists puts one separator between their joins. */
  lemma {:induction false} JoinAppend(x: seq<string>, y: seq<string>, sep: string)
    requires |x| > 0 && |y| > 0
    ensures Join(x + y, sep) == Join(x, sep) + sep + Join(y, sep)
    decreases |x|
  {
    if |x| == 1 {
      JoinOfHead(x[0], y, sep);
      assert [x[0]] + y == x + y;
    } else {
      JoinAppend(x[1..], y, sep);
      assert (x + y)[1..] == x[1..] + y;
      JoinOfHead(x[0], x[1..] + y, sep);
      assert [x[0]] + (x[1..] + y) == x + y;
      assert Join(x, sep) == x[0] + sep + Join(x[1..], sep);
    }
  }

  lemma {:induction false} JoinNoLower(ws: seq<string>)
    requires forall k :: 0 <= k < |ws| ==> NoLower(ws[k])
    ensures NoLower(Join(ws, " "))
  {
    if |ws| > 1 {
      JoinNoLower(ws[1..]);
    }
  }

  lemma UpperAllOfNoLower(ws: seq<string>)
    requires forall k :: 0 <= k < |ws| ==> NoLower(ws[k])
    ensures UpperAll(ws) == ws
  {
    forall k | 0 <= k < |ws| ensures UpperAll(ws)[k] == ws[k] {
      UpperOfNoLower(ws[k]);
    }
  }

  /** The tokens of a string without lower-case letters have none either. */
  lemma {:induction false} SplitNoLower(s: string)
    requires NoLower(s)
    ensures forall k :: 0 <= k < |Split(s)| ==> NoLower(Split(s)[k])
    decreases |s|
  {
    if |s| > 0 {
      if IsSpace(s[0]) {
        SplitNoLower(s[1..]);
      } else {
        var n := TokenLen(s);
        SplitNoLower(s[n..]);
        assert Split(s) == [s[..n]] + Split(s[n..]);
      }
    }
  }

  /** Joining non-empty parts gives "" exactly when there are no parts. */
  lemma JoinEmpty(parts: seq<string>, sep: string)
    requires forall k :: 0 <= k < |parts| ==> parts[k] != ""
    ensures Join(parts, sep) == "" <==> |parts| == 0
  {
    if |parts| > 1 {
      assert |Join(parts, sep)| >= |parts[0]|;
    }
  }

  // ---------------------------------------------------------------------------
  // clean_string (src/utils.py)
  // ---------------------------------------------------------------------------

  /** A string as `clean_string` leaves it: single-spaced, trimmed, no lower-case letters. */
  predicate IsClean(s: string) {
    SingleSpaced(s) && NoLower(s)
  }

  /**
   `clean_string`: falsy input gives "", otherwise the whitespace-separated
   tokens of the input, upper-cased and joined by single spaces.
   */
  function CleanString(text: string): (r: string)
    ensures |text| == 0 ==> r == ""
    ensures IsClean(r)
    ensures Trimmed(r)
  {
    if |text| == 0 then ""
    else
      var ws := Split(Strip(text));
      JoinTokensSingleSpaced(ws);
      UpperJoin(ws);
      UpperAllTokens(ws);
      JoinTokensSingleSpaced(UpperAll(ws));
      SingleSpacedIsTrimmed(Upper(Join(ws, " ")));
      Upper(Join(ws, " "))
  }

  /** The cleaned string carries the input's tokens, upper-cased, in order. */
  lemma CleanStringKeepsTokens(text: string)
    ensures Split(CleanString(text)) == UpperAll(Split(text))
  {
    if |text| > 0 {
      var ws := Split(Strip(text));
      SplitStrip(text);
      UpperJoin(ws);
      UpperAllTokens(ws);
      SplitJoin(UpperAll(ws));
    }
  }

  /** Leading whitespace never changes what split() returns. */
  lemma {:induction false} SplitAfterSpaces(g: string, y: string)
    requires AllSpace(g)
    ensures Split(g + y) == Split(y)
    decreases |g|
  {
    if |g| > 0 {
      assert (g + y)[0] == g[0];
      assert (g + y)[1..] == g[1..] + y;
      SplitAfterSpaces(g[1..], y);
    } else {
      assert g + y == y;
    }
  }

  /** A whitespace gap, then a token ended by whitespace or the end: split() yields the token first. */
  lemma SplitGapToken(g: string, t: string, x: string)
    requires AllSpace(g) && IsToken(t)
    requires |x| == 0 || IsSpace(x[0])
    ensures Split(g + t + x) == [t] + Split(x)
  {
    assert g + t + x == g + (t + x);
    SplitAfterSpaces(g, t + x);
    TokenLenOfToken(t, x);
    assert (t + x)[..|t|] == t;
    assert (t + x)[|t|..] == x;
  }

  lemma {:induction false} TokenLenConcat(a: string, b: string)
    requires |b| == 0 || IsSpace(b[0])
    ensures TokenLen(a + b) == TokenLen(a)
    decreases |a|
  {
    if |a| == 0 {
      assert a + b == b;
    } else {
      assert (a + b)[0] == a[0];
      assert (a + b)[1..] == a[1..] + b;
      TokenLenConcat(a[1..], b);
    }
  }

  /** split() of two texts meeting at whitespace is the concatenation of their splits. */
  lemma {:induction false} SplitConcat(a: string, b: string)
    requires |b| == 0 || IsSpace(b[0])
    ensures Split(a + b) == Split(a) + Split(b)
    decreases |a|
  {
    if |a| == 0 {
      assert a + b == b;
    } else if IsSpace(a[0]) {
      assert (a + b)[0] == a[0];
      assert (a + b)[1..] == a[1..] + b;
      SplitConcat(a[1..], b);
    } else {
      var n := TokenLen(a);
      TokenLenConcat(a, b);
      assert (a + b)[0] == a[0];
      assert (a + b)[..n] == a[..n];
      assert (a + b)[n..] == a[n..] + b;
      SplitConcat(a[n..], b);
    }
  }

  /** Cleaning is the upper-cased tokens of the input, joined by single spaces. */
  lemma CleanStringBySplit(text: string)
    requires |text| > 0
    ensures CleanString(text) == Join(UpperAll(Split(text)), " ")
  {
    SplitStrip(text);
    UpperJoin(Split(Strip(text)));
  }

  /** A string with no tokens cleans to the empty string. */
  lemma CleanStringBlank(text: string)
    requires Split(text) == []
    ensures CleanString(text) == ""
  {
    if |text| > 0 {
      SplitStrip(text);
    }
  }

  /** A non-empty input cleans to its upper-cased tokens joined by single spaces. */
  lemma CleanStringTokens(text: string)
    requires |text| > 0
    ensures CleanString(text) == Join(UpperAll(Split(Strip(text))), " ")
  {
    UpperJoin(Split(Strip(text)));
  }

  /** Upper-cased words have no lower-case letter. */
  lemma UpperAllNoLower(ws: seq<string>)
    ensures forall k :: 0 <= k < |ws| ==> NoLower(UpperAll(ws)[k])
  {
    forall k | 0 <= k < |ws| ensures NoLower(UpperAll(ws)[k]) {
      assert UpperAll(ws)[k] == Upper(ws[k]);
    }
  }

  /** Cleaning twice is cleaning once. */
  lemma CleanStringIdempotent(text: string)
    ensures CleanString(CleanString(text)) == CleanString(text)
  {
    if |CleanString(text)| > 0 {
      var ws := Split(Strip(text));
      CleanStringTokens(text);
      UpperAllTokens(ws);
      UpperAllNoLower(ws);
      var uw := UpperAll(ws);
      assert |uw| > 0;
      CleanOfJoinedTokens(uw);
    }
  }

  /** Upper-case tokens joined by single spaces are already clean. */
  lemma CleanOfJoinedTokens(uw: seq<string>)
    requires AllTokens(uw)
    requires |uw| > 0
    requires forall k :: 0 <= k < |uw| ==> NoLower(uw[k])
    ensures CleanString(Join(uw, " ")) == Join(uw, " ")
  {
    var c := Join(uw, " ");
    JoinTokensSingleSpaced(uw);
    SingleSpacedIsTrimmed(c);
    StripOfTrimmed(c);
    SplitJoin(uw);
    assert Split(Strip(c)) == uw;
    UpperJoin(uw);
    assert UpperAll(uw) == uw by {
      forall k | 0 <= k < |uw| ensures UpperAll(uw)[k] == uw[k] {
        UpperOfNoLower(uw[k]);
      }
    }
  }
}
