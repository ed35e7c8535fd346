/** The class-string chains of the wrapper: JavaScript `split(' ')`,
    `join(' ')` and `trim()`, the `dx-` prefix filter of the `elementAttr`
    getter, and the de-duplicated `className` that `getProps` builds. */
module ClassTokens {

  // ----- split, join, trim -----

  /** `s.split(' ')`: the pieces between single spaces, empty pieces
      included, so that a string without a space is one piece. */
  function Split(s: string): (parts: seq<string>)
    ensures |parts| >= 1
    ensures forall i :: 0 <= i < |parts| ==> ' ' !in parts[i]
    decreases |s|
  {
    if |s| == 0 then [""]
    else
      var rest := Split(s[1..]);
      if s[0] == ' ' then [""] + rest
      else [[s[0]] + rest[0]] + rest[1..]
  }

  /** `parts.join(' ')`; the join of no parts is the empty string. */
  function Join(parts: seq<string>): string
  {
    if |parts| == 0 then ""
    else if |parts| == 1 then parts[0]
    else parts[0] + " " + Join(parts[1..])
  }

  /** The characters `String.prototype.trim` removes: white space and line
      terminators. */
  predicate IsWhiteSpace(c: char)
  {
    c in {' ', '\t', '\n', '\r', '\U{0B}', '\U{0C}', '\U{A0}', '\U{1680}',
          '\U{2000}', '\U{2001}', '\U{2002}', '\U{2003}', '\U{2004}', '\U{2005}',
          '\U{2006}', '\U{2007}', '\U{2008}', '\U{2009}', '\U{200A}',
          '\U{2028}', '\U{2029}', '\U{202F}', '\U{205F}', '\U{3000}', '\U{FEFF}'}
  }

  /** `s` without its leading run of white space. */
  function TrimStart(s: string): string
  {
    if |s| > 0 && IsWhiteSpace(s[0]) then TrimStart(s[1..]) else s
  }

  /** `s` without its trailing run of white space. */
  function TrimEnd(s: string): string
  {
    if |s| > 0 && IsWhiteSpace(s[|s| - 1]) then TrimEnd(s[..|s| - 1]) else s
  }

  /** `TrimStart` keeps a suffix, cuts white space only, and stops at the
      first character that is not. */
  lemma {:induction false} TrimStartFacts(s: string)
    ensures var r := TrimStart(s);
            && |r| <= |s| && r == s[|s| - |r|..]
            && (forall k :: 0 <= k < |s| - |r| ==> IsWhiteSpace(s[k]))
            && (|r| > 0 ==> !IsWhiteSpace(r[0]))
    decreases |s|
  {
    if |s| > 0 && IsWhiteSpace(s[0]) {
      TrimStartFacts(s[1..]);
    }
  }

  /** `TrimEnd` keeps a prefix, cuts white space only, and stops at the last
      character that is not. */
  lemma {:induction false} TrimEndFacts(s: string)
    ensures var r := TrimEnd(s);
            && |r| <= |s| && r == s[..|r|]
            && (forall k :: |r| <= k < |s| ==> IsWhiteSpace(s[k]))
            && (|r| > 0 ==> !IsWhiteSpace(r[|r| - 1]))
    decreases |s|
  {
    if |s| > 0 && IsWhiteSpace(s[|s| - 1]) {
      TrimEndFacts(s[..|s| - 1]);
    }
  }

  /** A string made of white space only. */
  predicate Blank(s: string)
  {
    forall k :: 0 <= k < |s| ==> IsWhiteSpace(s[k])
  }

  /** `s.trim()`: the result starts and ends with a non-blank character (so
      a string that already does is returned as it is); `TrimCutsBlankRuns`
      states what was cut. */
  function Trim(s: string): (r: string)
    ensures |r| <= |s|
    ensures |r| > 0 ==> !IsWhiteSpace(r[0]) && !IsWhiteSpace(r[|r| - 1])
    ensures |s| > 0 && !IsWhiteSpace(s[0]) && !IsWhiteSpace(s[|s| - 1]) ==> r == s
    ensures |s| == 0 ==> r == ""
  {
    var t := TrimStart(s);
    TrimStartFacts(s);
    TrimEndFacts(t);
    TrimEnds(s, t, TrimEnd(t));
    TrimEnd(t)
  }

  /** `s.trim()` only cuts a run of white space off each end: `s` is that
      run, the result and the other run. */
  lemma TrimCutsBlankRuns(s: string)
    ensures exists a, b :: s == a + Trim(s) + b && Blank(a) && Blank(b)
  {
    var t := TrimStart(s);
    TrimStartFacts(s);
    TrimEndFacts(t);
    TrimParts(s, |s| - |t|, t, TrimEnd(t));
  }

  /** What trimming the start and then the end leaves at either end. */
  lemma TrimEnds(s: string, t: string, r: string)
    requires t == TrimStart(s) && r == TrimEnd(t)
    requires |t| <= |s| && t == s[|s| - |t|..] && (|t| > 0 ==> !IsWhiteSpace(t[0]))
    requires |r| <= |t| && r == t[..|r|] && (|r| > 0 ==> !IsWhiteSpace(r[|r| - 1]))
    ensures |r| > 0 ==> !IsWhiteSpace(r[0]) && !IsWhiteSpace(r[|r| - 1])
    ensures |s| > 0 && !IsWhiteSpace(s[0]) && !IsWhiteSpace(s[|s| - 1]) ==> r == s
  {
    if |r| > 0 {
      assert r[0] == t[0];
    }
    if |s| > 0 && !IsWhiteSpace(s[0]) && !IsWhiteSpace(s[|s| - 1]) {
      assert t == s;
    }
  }

  /** Cutting a blank head `s[..i]` and then a blank tail off `t`. */
  lemma TrimParts(s: string, i: nat, t: string, r: string)
    requires i <= |s| && t == s[i..] && |r| <= |t| && r == t[..|r|]
    requires forall k :: 0 <= k < i ==> IsWhiteSpace(s[k])
    requires forall k :: |r| <= k < |t| ==> IsWhiteSpace(t[k])
    ensures exists a, b :: s == a + r + b && Blank(a) && Blank(b)
  {
    var b := s[i + |r|..];
    forall k | 0 <= k < |b| ensures IsWhiteSpace(b[k]) {
      assert b[k] == t[|r| + k];
    }
    forall k | 0 <= k < i ensures IsWhiteSpace(s[..i][k]) {
      assert s[..i][k] == s[k];
    }
    SliceAround(s, i, |r|);
    assert s == s[..i] + r + s[i + |r|..] && Blank(s[..i]) && Blank(s[i + |r|..]);
  }

  /** A string is its part before `i`, the `n` characters from `i`, and the
      rest. */
  lemma SliceAround(s: string, i: nat, n: nat)
    requires i + n <= |s|
    ensures s == s[..i] + s[i..][..n] + s[i + n..]
  {
    assert s[..i] + s[i..][..n] + s[i + n..] == s[..i + n] + s[i + n..];
  }

  /** A string whose only white space is the space character. */
  predicate BlankOnlySpace(s: string)
  {
    forall k :: 0 <= k < |s| ==> s[k] == ' ' || !IsWhiteSpace(s[k])
  }

  // ----- split and join are inverse -----

  lemma {:induction false} SplitNoSpace(p: string)
    requires ' ' !in p
    ensures Split(p) == [p]
    decreases |p|
  {
    if |p| > 0 {
      assert ' ' !in p[1..] by { assert forall k :: 0 <= k < |p[1..]| ==> p[1..][k] == p[k + 1]; }
      SplitNoSpace(p[1..]);
      assert [p[0]] + p[1..] == p;
    }
  }

  /** Splitting at a space splits each side independently. */
  lemma {:induction false} SplitAtSpace(a: string, b: string)
    ensures Split(a + " " + b) == Split(a) + Split(b)
    decreases |a|
  {
    if |a| == 0 {
      SpaceFirst(a, b);
      SplitCons(' ', b);
    } else {
      var c, tail := a[0], a[1..];
      SpaceAfter(a, b);
      SplitAtSpace(tail, b);
      SplitCons(c, tail);
      SplitCons(c, tail + " " + b);
      HeadMerge([c], Split(tail), Split(b));
    }
  }

  /** Gluing a prefix to the first piece commutes with appending pieces. */
  lemma HeadMerge(h: string, left: seq<string>, right: seq<string>)
    requires |left| >= 1
    ensures [h + (left + right)[0]] + (left + right)[1..] == [h + left[0]] + left[1..] + right
  {
    assert (left + right)[1..] == left[1..] + right;
  }

  lemma SpaceFirst(a: string, b: string)
    requires a == ""
    ensures a + " " + b == [' '] + b
  {
  }

  lemma SpaceAfter(a: string, b: string)
    requires |a| > 0
    ensures a == [a[0]] + a[1..] && a + " " + b == [a[0]] + (a[1..] + " " + b)
  {
  }

  /** `split` over a string one character longer. */
  lemma SplitCons(c: char, t: string)
    ensures Split([c] + t) == if c == ' ' then [""] + Split(t) else [[c] + Split(t)[0]] + Split(t)[1..]
  {
    assert ([c] + t)[1..] == t;
  }

  /** `join` undoes `split`. */
  lemma {:induction false} JoinSplit(s: string)
    ensures Join(Split(s)) == s
    decreases |s|
  {
    if |s| > 0 {
      var rest := Split(s[1..]);
      JoinSplit(s[1..]);
      if s[0] == ' ' {
        assert Join([""] + rest) == "" + " " + Join(rest) by {
          assert ([""] + rest)[1..] == rest;
        }
      } else if |rest| == 1 {
        assert [s[0]] + s[1..] == s;
      } else {
        var parts := [[s[0]] + rest[0]] + rest[1..];
        assert parts[1..] == rest[1..];
        assert Join(rest) == rest[0] + " " + Join(rest[1..]);
        assert [s[0]] + s[1..] == s;
      }
    }
  }

  /** `split` undoes `join` when no piece holds a space. */
  lemma {:induction false} SplitJoin(parts: seq<string>)
    requires |parts| >= 1
    requires forall i :: 0 <= i < |parts| ==> ' ' !in parts[i]
    ensures Split(Join(parts)) == parts
    decreases |parts|
  {
    if |parts| == 1 {
      SplitNoSpace(parts[0]);
    } else {
      SplitJoin(parts[1..]);
      SplitNoSpace(parts[0]);
      SplitAtSpace(parts[0], Join(parts[1..]));
      assert [parts[0]] + parts[1..] == parts;
    }
  }

  lemma {:induction false} JoinSnoc(parts: seq<string>, last: string)
    requires |parts| >= 1
    ensures Join(parts + [last]) == Join(parts) + " " + last
    decreases |parts|
  {
    if |parts| > 1 {
      assert (parts + [last])[1..] == parts[1..] + [last];
      JoinSnoc(parts[1..], last);
    }
  }

  // ----- the dx- prefix rule of the elementAttr getter -----

  /** `name.indexOf('dx-') === 0`. */
  predicate IsDxClass(name: string)
  {
    |name| >= 3 && name[..3] == "dx-"
  }

  /** `name.indexOf('dx-') !== 0`. */
  predicate IsOwnClass(name: string)
  {
    !IsDxClass(name)
  }

  function Filter(xs: seq<string>, keep: string -> bool): (r: seq<string>)
    ensures |r| <= |xs|
    ensures forall i :: 0 <= i < |r| ==> keep(r[i]) && r[i] in xs
    ensures forall t :: t in xs && keep(t) ==> t in r
  {
    if |xs| == 0 then []
    else if keep(xs[0]) then [xs[0]] + Filter(xs[1..], keep)
    else Filter(xs[1..], keep)
  }

  /** A filter keeps the order of what it keeps: it distributes over
      concatenation, and keeps a single token exactly when the test holds. */
  lemma {:induction false} FilterAppend(a: seq<string>, b: seq<string>, keep: string -> bool)
    ensures Filter(a + b, keep) == Filter(a, keep) + Filter(b, keep)
    ensures forall x :: Filter([x], keep) == if keep(x) then [x] else []
    decreases |a|
  {
    if |a| > 0 {
      assert (a + b)[1..] == a[1..] + b;
      FilterAppend(a[1..], b, keep);
    } else {
      assert a + b == b;
    }
    forall x ensures Filter([x], keep) == if keep(x) then [x] else [] {
      assert [x][1..] == [];
    }
  }

  /** A filter whose test every token passes changes nothing. */
  lemma {:induction false} FilterKeepsAll(xs: seq<string>, keep: string -> bool)
    requires forall i :: 0 <= i < |xs| ==> keep(xs[i])
    ensures Filter(xs, keep) == xs
    decreases |xs|
  {
    if |xs| > 0 {
      FilterKeepsAll(xs[1..], keep);
      assert [xs[0]] + xs[1..] == xs;
    }
  }

  /** The `dx-` tokens of a class attribute, in order. */
  function DxClasses(cssClass: string): seq<string>
  {
    Filter(Split(cssClass), IsDxClass)
  }

  /** The other tokens of a class attribute, in order (empty tokens too). */
  function OwnClasses(cssClass: string): seq<string>
  {
    Filter(Split(cssClass), IsOwnClass)
  }

  /** What the getter stores in `_storedClasses` on its first access. */
  function StoredFrom(cssClass: string): string
  {
    Join(DxClasses(cssClass))
  }

  /** The class list the getter builds before trimming: the non-`dx-` tokens
      of the current attribute, then the stored string as one more piece. */
  function ClassList(cssClass: string, stored: string): string
  {
    Join(OwnClasses(cssClass) + [stored])
  }

  /** The `class` the getter writes into its attribute snapshot. */
  function ElementClass(cssClass: string, stored: string): string
  {
    Trim(ClassList(cssClass, stored))
  }

  /** Every token of a class attribute is either a `dx-` token or one of the
      element's own tokens: the two filters partition it. */
  lemma {:induction false} DxPartition(xs: seq<string>)
    ensures multiset(Filter(xs, IsDxClass)) + multiset(Filter(xs, IsOwnClass)) == multiset(xs)
    decreases |xs|
  {
    if |xs| > 0 {
      var x, rest := xs[0], xs[1..];
      DxPartition(rest);
      var dx, own := Filter(rest, IsDxClass), Filter(rest, IsOwnClass);
      assert multiset(xs) == multiset{x} + multiset(rest) by {
        assert xs == [x] + rest;
      }
      if IsDxClass(x) {
        assert Filter(xs, IsDxClass) == [x] + dx;
        assert Filter(xs, IsOwnClass) == own;
      } else {
        assert Filter(xs, IsDxClass) == dx;
        assert Filter(xs, IsOwnClass) == [x] + own;
      }
    }
  }

  /** The stored string splits back into exactly the `dx-` tokens it was made
      from (a lone empty token when there were none). */
  lemma StoredTokens(cssClass: string)
    ensures Split(StoredFrom(cssClass))
            == if DxClasses(cssClass) == [] then [""] else DxClasses(cssClass)
  {
    var dx := DxClasses(cssClass);
    if dx != [] {
      assert forall i :: 0 <= i < |dx| ==> ' ' !in dx[i];
      SplitJoin(dx);
    }
  }

  /** The tokens of the getter's class list: the own tokens of the CURRENT
      attribute, none of them `dx-`, followed by the tokens of the stored
      string. */
  lemma ClassListTokens(cssClass: string, stored: string)
    ensures Split(ClassList(cssClass, stored)) == OwnClasses(cssClass) + Split(stored)
    ensures forall t :: t in OwnClasses(cssClass) ==> !IsDxClass(t)
  {
    var own := OwnClasses(cssClass);
    if own == [] {
      assert own + [stored] == [stored];
    } else {
      JoinSnoc(own, stored);
      assert forall i :: 0 <= i < |own| ==> ' ' !in own[i];
      SplitJoin(own);
      SplitAtSpace(Join(own), stored);
    }
  }

  /** Once stored from the first attribute seen, the `dx-` tokens of that
      attribute follow the own tokens of whatever attribute is current, even
      if a later render stripped them from the element. */
  lemma ElementClassKeepsDxTokens(first: string, current: string)
    ensures Split(ClassList(current, StoredFrom(first)))
            == OwnClasses(current)
               + (if DxClasses(first) == [] then [""] else DxClasses(first))
  {
    ClassListTokens(current, StoredFrom(first));
    StoredTokens(first);
  }

  // ----- the trimmed class the getter writes -----

  /** A non-empty piece: the pieces that name a class. */
  predicate IsToken(piece: string)
  {
    piece != ""
  }

  /** The class names a class string lists: its non-empty pieces, in order. */
  function Tokens(s: string): seq<string>
  {
    Filter(Split(s), IsToken)
  }

  lemma TokensLeadingSpace(s: string)
    ensures Tokens(" " + s) == Tokens(s)
  {
    assert (" " + s)[1..] == s;
    assert Split(" " + s) == [""] + Split(s);
    assert ([""] + Split(s))[1..] == Split(s);
  }

  lemma TokensTrailingSpace(s: string)
    ensures Tokens(s + " ") == Tokens(s)
  {
    SplitAtSpace(s, "");
    assert s + " " + "" == s + " ";
    FilterAppend(Split(s), [""], IsToken);
  }

  /** Spaces around a class string name no class. */
  lemma {:induction false} PaddedTokens(w: string, r: string, v: string)
    requires forall k :: 0 <= k < |w| ==> w[k] == ' '
    requires forall k :: 0 <= k < |v| ==> v[k] == ' '
    ensures Tokens(w + r + v) == Tokens(r)
    decreases |w| + |v|
  {
    if |w| > 0 {
      assert w + r + v == " " + (w[1..] + r + v);
      TokensLeadingSpace(w[1..] + r + v);
      PaddedTokens(w[1..], r, v);
    } else if |v| > 0 {
      var init := v[..|v| - 1];
      assert w + r + v == (w + r + init) + " ";
      TokensTrailingSpace(w + r + init);
      PaddedTokens(w, r, init);
    } else {
      assert w + r + v == r;
    }
  }

  /** When the only white space is the space character, `trim()` removes
      spaces only, and so names the same classes. */
  lemma TrimTokens(s: string)
    requires BlankOnlySpace(s)
    ensures Tokens(Trim(s)) == Tokens(s)
  {
    var r := Trim(s);
    TrimCutsBlankRuns(s);
    var w, v :| s == w + r + v && Blank(w) && Blank(v);
    OnlySpaces(s, w, r, v);
    PaddedTokens(w, r, v);
  }

  /** The white-space runs around a string whose only white space is the
      space character are made of spaces. */
  lemma OnlySpaces(s: string, w: string, r: string, v: string)
    requires s == w + r + v && BlankOnlySpace(s) && Blank(w) && Blank(v)
    ensures forall k :: 0 <= k < |w| ==> w[k] == ' '
    ensures forall k :: 0 <= k < |v| ==> v[k] == ' '
  {
    forall k | 0 <= k < |w| ensures w[k] == ' ' {
      assert s[k] == w[k];
    }
    forall k | 0 <= k < |v| ensures v[k] == ' ' {
      assert s[|w| + |r| + k] == v[k];
    }
  }

  /** Joining pieces whose only white space is the space character keeps
      it that way. */
  lemma {:induction false} JoinBlankOnlySpace(parts: seq<string>)
    requires forall i :: 0 <= i < |parts| ==> BlankOnlySpace(parts[i])
    ensures BlankOnlySpace(Join(parts))
    decreases |parts|
  {
    if |parts| > 1 {
      JoinBlankOnlySpace(parts[1..]);
      var rest := Join(parts[1..]);
      var j := parts[0] + " " + rest;
      forall k | 0 <= k < |j| ensures j[k] == ' ' || !IsWhiteSpace(j[k]) {
        if k < |parts[0]| {
          assert j[k] == parts[0][k];
        } else if k > |parts[0]| {
          assert j[k] == rest[k - |parts[0]| - 1];
        }
      }
    }
  }

  /** A piece of a class string whose only white space is the space holds
      no white space at all. */
  lemma PieceBlankOnlySpace(s: string, piece: string)
    requires BlankOnlySpace(s) && piece in Split(s)
    ensures BlankOnlySpace(piece)
  {
    SplitChars(s, piece);
    forall k | 0 <= k < |piece| ensures piece[k] == ' ' || !IsWhiteSpace(piece[k]) {
      assert piece[k] in piece;
    }
  }

  /** The class list holds no white space but spaces when the attributes it
      is built from hold none. */
  lemma ClassListBlankOnlySpace(current: string, first: string)
    requires BlankOnlySpace(current) && BlankOnlySpace(first)
    ensures BlankOnlySpace(ClassList(current, StoredFrom(first)))
  {
    var dx := DxClasses(first);
    forall i | 0 <= i < |dx| ensures BlankOnlySpace(dx[i]) {
      PieceBlankOnlySpace(first, dx[i]);
    }
    JoinBlankOnlySpace(dx);
    var parts := OwnClasses(current) + [StoredFrom(first)];
    forall i | 0 <= i < |parts| ensures BlankOnlySpace(parts[i]) {
      if i < |OwnClasses(current)| {
        PieceBlankOnlySpace(current, parts[i]);
      }
    }
    JoinBlankOnlySpace(parts);
  }

  /** The `class` the getter writes names the element's own classes of the
      current attribute followed by the `dx-` classes stored on the first
      access, whatever the current attribute has lost, provided the
      attributes hold no white space but spaces. */
  lemma ElementClassTokens(current: string, first: string)
    requires BlankOnlySpace(current) && BlankOnlySpace(first)
    ensures Tokens(ElementClass(current, StoredFrom(first)))
            == Filter(OwnClasses(current), IsToken) + DxClasses(first)
  {
    ClassListBlankOnlySpace(current, first);
    TrimTokens(ClassList(current, StoredFrom(first)));
    ElementClassKeepsDxTokens(first, current);
    var dx := DxClasses(first);
    var stored := if dx == [] then [""] else dx;
    FilterAppend(OwnClasses(current), stored, IsToken);
    FilterKeepsAll(dx, IsToken);
  }

  // ----- className de-duplication of getProps -----

  /** `a.indexOf(c)`: the first index of `c`, or -1. */
  function IndexOf(a: seq<string>, c: string): (i: int)
    ensures -1 <= i < |a|
    ensures i == -1 <==> c !in a
    ensures 0 <= i ==> a[i] == c && c !in a[..i]
  {
    if |a| == 0 then -1
    else if a[0] == c then 0
    else
      var j := IndexOf(a[1..], c);
      assert j >= 0 ==> a[..j + 1] == [a[0]] + a[1..][..j];
      if j == -1 then -1 else j + 1
  }

  /** `a.slice(0, n).filter((c, i) => c && a.indexOf(c) === i)`. */
  function KeepFirst(a: seq<string>, n: nat): seq<string>
    requires n <= |a|
  {
    if n == 0 then []
    else KeepFirst(a, n - 1) + (if a[n - 1] != "" && IndexOf(a, a[n - 1]) == n - 1 then [a[n - 1]] else [])
  }

  /** The filter of `getProps` over the whole token list. */
  function Dedup(a: seq<string>): seq<string>
  {
    KeepFirst(a, |a|)
  }

  lemma {:induction false} KeepFirstProperties(a: seq<string>, n: nat)
    requires n <= |a|
    ensures forall t :: t in KeepFirst(a, n) <==> t in a[..n] && t != ""
    ensures forall i :: 0 <= i < |KeepFirst(a, n)| ==> 0 <= IndexOf(a, KeepFirst(a, n)[i]) < n
    ensures forall i, j :: 0 <= i < j < |KeepFirst(a, n)| ==>
              IndexOf(a, KeepFirst(a, n)[i]) < IndexOf(a, KeepFirst(a, n)[j])
    decreases n
  {
    if n > 0 {
      KeepFirstProperties(a, n - 1);
      var r := KeepFirst(a, n - 1);
      var x := a[n - 1];
      assert a[..n] == a[..n - 1] + [x];
      if x != "" && IndexOf(a, x) != n - 1 {
        var k := IndexOf(a, x);
        assert a[..n - 1][k] == x;
      }
    }
  }

  /** `getProps`'s filter keeps exactly the non-empty tokens, each once, in
      the order of their first occurrence. */
  lemma DedupProperties(a: seq<string>)
    ensures forall t :: t in Dedup(a) <==> t in a && t != ""
    ensures forall i, j :: 0 <= i < j < |Dedup(a)| ==> Dedup(a)[i] != Dedup(a)[j]
    ensures forall i, j :: 0 <= i < j < |Dedup(a)| ==> IndexOf(a, Dedup(a)[i]) < IndexOf(a, Dedup(a)[j])
  {
    KeepFirstProperties(a, |a|);
    assert a[..|a|] == a;
  }

  /** The `className` of `getProps`: host classes, then option classes,
      de-duplicated, space-joined and trimmed. */
  function ClassName(hostClass: string, optionClass: string): string
  {
    Trim(Join(ClassNameTokenList(hostClass, optionClass)))
  }

  /** The de-duplicated tokens of the host class followed by the option class. */
  function ClassNameTokenList(hostClass: string, optionClass: string): seq<string>
  {
    Dedup(Split(hostClass) + Split(optionClass))
  }

  /** The joined `className` splits back into its de-duplicated tokens; every
      non-empty token of either input is among them exactly once, and a host
      token comes before every token that only the options contribute. */
  lemma ClassNameTokens(hostClass: string, optionClass: string)
    ensures var toks := ClassNameTokenList(hostClass, optionClass);
      && (toks != [] ==> Split(Join(toks)) == toks)
      && (forall t :: t in toks <==> t != "" && (t in Split(hostClass) || t in Split(optionClass)))
      && (forall i, j :: 0 <= i < j < |toks| ==> toks[i] != toks[j])
      && (forall i, j ::
            (0 <= i < |toks| && 0 <= j < |toks| && toks[i] in Split(hostClass) && toks[j] !in Split(hostClass))
            ==> i < j)
  {
    var host := Split(hostClass);
    var a := host + Split(optionClass);
    var toks := Dedup(a);
    DedupProperties(a);
    if toks != [] {
      assert forall i :: 0 <= i < |toks| ==> ' ' !in toks[i] by {
        forall i | 0 <= i < |toks| ensures ' ' !in toks[i] {
          assert toks[i] in a;
        }
      }
      SplitJoin(toks);
    }
    HostTokensFirst(host, Split(optionClass));
  }

  /** De-duplicating a list that starts with `host` keeps every token of
      `host` before every token that is not one of them. */
  lemma HostTokensFirst(host: seq<string>, rest: seq<string>)
    ensures var toks := Dedup(host + rest);
      forall i, j :: 0 <= i < |toks| && 0 <= j < |toks| && toks[i] in host && toks[j] !in host ==> i < j
  {
    var a := host + rest;
    var toks := Dedup(a);
    DedupProperties(a);
    forall i, j | 0 <= i < |toks| && 0 <= j < |toks| && toks[i] in host && toks[j] !in host
      ensures i < j
    {
      var h := IndexOf(host, toks[i]);
      assert a[h] == toks[i];
      assert IndexOf(a, toks[i]) <= h < |host|;
      assert a[..|host|] == host;
      assert i != j;
    }
  }

  /** `join` begins with the first piece and ends with the last. */
  lemma {:induction false} JoinEnds(parts: seq<string>)
    requires |parts| >= 1
    ensures |Join(parts)| >= |parts[0]| && Join(parts)[..|parts[0]|] == parts[0]
    ensures var last := parts[|parts| - 1];
      |Join(parts)| >= |last| && Join(parts)[|Join(parts)| - |last|..] == last
    decreases |parts|
  {
    if |parts| > 1 {
      JoinEnds(parts[1..]);
      var rest := Join(parts[1..]);
      assert Join(parts) == parts[0] + " " + rest;
      assert (parts[0] + " " + rest)[..|parts[0]|] == parts[0];
    }
  }

  /** When no class token holds white space, trimming changes nothing: the
      `className` is exactly the de-duplicated tokens joined by single
      spaces, and splits back into them. */
  lemma ClassNameIsJoin(hostClass: string, optionClass: string)
    requires BlankOnlySpace(hostClass) && BlankOnlySpace(optionClass)
    ensures ClassName(hostClass, optionClass) == Join(ClassNameTokenList(hostClass, optionClass))
    ensures ClassNameTokenList(hostClass, optionClass) != [] ==>
              Split(ClassName(hostClass, optionClass)) == ClassNameTokenList(hostClass, optionClass)
  {
    var toks := ClassNameTokenList(hostClass, optionClass);
    var j := Join(toks);
    if toks != [] {
      var first, last := toks[0], toks[|toks| - 1];
      JoinEnds(toks);
      TokenChars(hostClass, optionClass, first);
      TokenChars(hostClass, optionClass, last);
      assert j[0] == first[0] by { assert j[..|first|] == first; }
      assert j[|j| - 1] == last[|last| - 1] by { assert j[|j| - |last|..] == last; }
      ClassNameTokens(hostClass, optionClass);
    }
  }

  /** A `className` token is non-empty and, when the inputs hold no white
      space but the separating spaces, holds none either. */
  lemma TokenChars(hostClass: string, optionClass: string, t: string)
    requires BlankOnlySpace(hostClass) && BlankOnlySpace(optionClass)
    requires t in ClassNameTokenList(hostClass, optionClass)
    ensures t != "" && forall c :: c in t ==> !IsWhiteSpace(c)
  {
    DedupProperties(Split(hostClass) + Split(optionClass));
    if t in Split(hostClass) {
      SplitChars(hostClass, t);
    } else {
      SplitChars(optionClass, t);
    }
  }

  /** Every character of a piece of `split` is a character of the string
      other than the space. */
  lemma {:induction false} SplitChars(s: string, piece: string)
    requires piece in Split(s)
    ensures forall c :: c in piece ==> c in s && c != ' '
    decreases |s|
  {
    if |s| > 0 {
      var rest := Split(s[1..]);
      if piece in rest {
        SplitChars(s[1..], piece);
      } else if s[0] != ' ' {
        SplitChars(s[1..], rest[0]);
      }
    }
  }

  // ----- a worked example -----

  lemma ExampleTokens()
    ensures Split("b c") + Split("a b") == ["b", "c", "a", "b"]
  {
    SplitAtSpace("b", "c");
    SplitAtSpace("a", "b");
    SplitNoSpace("a");
    SplitNoSpace("b");
    SplitNoSpace("c");
    assert "b c" == "b" + " " + "c";
    assert "a b" == "a" + " " + "b";
  }

  lemma ExampleIndices()
    ensures IndexOf(["b", "c", "a", "b"], "b") == 0
    ensures IndexOf(["b", "c", "a", "b"], "c") == 1
    ensures IndexOf(["b", "c", "a", "b"], "a") == 2
  {
    var a := ["b", "c", "a", "b"];
    assert a[1..] == ["c", "a", "b"] && a[1..][1..] == ["a", "b"];
  }

  lemma ExampleDedup()
    ensures Dedup(["b", "c", "a", "b"]) == ["b", "c", "a"]
  {
    var a := ["b", "c", "a", "b"];
    ExampleIndices();
    assert KeepFirst(a, 1) == ["b"];
    assert KeepFirst(a, 2) == ["b", "c"];
    assert KeepFirst(a, 3) == ["b", "c", "a"];
    assert KeepFirst(a, 4) == KeepFirst(a, 3) by { assert a[3] == "b"; }
  }

  lemma ExampleJoin()
    ensures Trim(Join(["b", "c", "a"])) == "b c a"
  {
    var j := Join(["b", "c", "a"]);
    assert j == "b c a";
    assert j[0] == 'b' && j[|j| - 1] == 'a';
    assert !IsWhiteSpace('b') && !IsWhiteSpace('a');
  }

  /** Host classes `b c` and option classes `a b` give `b c a`: the host
      classes come first. */
  lemma ClassNameExample()
    ensures ClassName("b c", "a b") == "b c a"
  {
    ExampleTokens();
    ExampleDedup();
    ExampleJoin();
  }
}
