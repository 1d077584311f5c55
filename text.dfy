/**
 * The handful of Python 2 `str` operations the pipeline relies on, with their
 * Python semantics: `startswith`, `endswith`, `in`, `split(sep)`, `replace(sig, '')`,
 * `strip()`, `os.path.splitext` and the ordering of strings.
 */
module Text {
  import opened Wrappers

  predicate StartsWith(s: string, prefix: string) {
    |prefix| <= |s| && s[..|prefix|] == prefix
  }

  predicate EndsWith(s: string, suffix: string) {
    |suffix| <= |s| && s[|s| - |suffix|..] == suffix
  }

  /** `sub` occurs in `s` starting at index `j`. */
  predicate OccursAt(s: string, sub: string, j: int) {
    0 <= j && j + |sub| <= |s| && s[j..j + |sub|] == sub
  }

  /**
   * Python's `s.find(sub)`: the first index at which `sub` occurs in `s`, or -1.
   * The empty string occurs at index 0.
   */
  function Find(s: string, sub: string): (r: int)
    ensures r >= -1
    ensures r >= 0 ==> OccursAt(s, sub, r)
    ensures forall j :: 0 <= j && (r < 0 || j < r) ==> !OccursAt(s, sub, j)
    decreases |s|
  {
    assert |sub| <= |s| ==> s[0..|sub|] == s[..|sub|];
    if StartsWith(s, sub) then 0
    else if s == [] then -1
    else
      var r := Find(s[1..], sub);
      assert !OccursAt(s, sub, 0);
      OccursShift(s, sub);
      if r < 0 then -1 else r + 1
  }

  lemma OccursShift(s: string, sub: string)
    requires s != []
    ensures forall j :: 0 < j ==> OccursAt(s, sub, j) == OccursAt(s[1..], sub, j - 1)
  {
    forall j | 0 < j
      ensures OccursAt(s, sub, j) == OccursAt(s[1..], sub, j - 1)
    {
      if j + |sub| <= |s| {
        var u, v := s[j..j + |sub|], s[1..][j - 1..j - 1 + |sub|];
        assert forall k :: 0 <= k < |sub| ==> u[k] == v[k];
        assert u == v;
      }
    }
  }

  /** Python's `sub in s`. */
  predicate Contains(s: string, sub: string) {
    Find(s, sub) >= 0
  }

  /** Regrouping a concatenation, for proofs that build strings piece by piece. */
  lemma Assoc<T>(a: seq<T>, b: seq<T>, c: seq<T>)
    ensures (a + b) + c == a + (b + c)
  {}

  /** The concatenation of a list of strings: Python's `''.join(parts)`. */
  function Concat(parts: seq<string>): (r: string)
  {
    if parts == [] then [] else parts[0] + Concat(parts[1..])
  }

  /** Python's `sep.join(parts)` for a non-empty list. */
  function Join(parts: seq<string>, sep: string): (r: string)
    requires |parts| >= 1
  {
    if |parts| == 1 then parts[0] else parts[0] + sep + Join(parts[1..], sep)
  }

  /**
   * Python's `s.split(sep)` for a non-empty separator: the text between the
   * occurrences of `sep` found scanning left to right without overlap.
   */
  function Split(s: string, sep: string): (parts: seq<string>)
    requires sep != []
    ensures |parts| >= 1
    decreases |s|
  {
    var i := Find(s, sep);
    if i < 0 then [s] else [s[..i]] + Split(s[i + |sep|..], sep)
  }

  /** Joining the pieces of a split with the separator gives back the original string. */
  lemma {:induction false} SplitJoin(s: string, sep: string)
    requires sep != []
    ensures Join(Split(s, sep), sep) == s
    decreases |s|
  {
    var i := Find(s, sep);
    if i >= 0 {
      var tail := s[i + |sep|..];
      var pieces := Split(tail, sep);
      assert Split(s, sep) == [s[..i]] + pieces;
      SplitJoin(tail, sep);
      assert Join([s[..i]] + pieces, sep) == s[..i] + sep + Join(pieces, sep) by {
        assert ([s[..i]] + pieces)[1..] == pieces;
      }
      assert s == s[..i] + s[i..i + |sep|] + tail;
    } else {
      assert Split(s, sep) == [s];
    }
  }

  /** A prefix of `s` ending before the first occurrence of `sub` does not contain it. */
  lemma BeforeFirstOccurrence(s: string, sub: string, i: nat)
    requires i <= |s| && (Find(s, sub) < 0 || i <= Find(s, sub))
    requires sub != []
    ensures !Contains(s[..i], sub)
  {
    var j := Find(s[..i], sub);
    if j >= 0 {
      assert s[..i][j..j + |sub|] == s[j..j + |sub|];
      assert OccursAt(s, sub, j);
    }
  }

  /** No piece of a split contains the separator. */
  lemma {:induction false} SplitPiecesClean(s: string, sep: string)
    requires sep != []
    ensures forall k :: 0 <= k < |Split(s, sep)| ==> !Contains(Split(s, sep)[k], sep)
    decreases |s|
  {
    var i := Find(s, sep);
    if i >= 0 {
      BeforeFirstOccurrence(s, sep, i);
      SplitPiecesClean(s[i + |sep|..], sep);
      assert Split(s, sep) == [s[..i]] + Split(s[i + |sep|..], sep);
    } else {
      assert s[..|s|] == s;
      BeforeFirstOccurrence(s, sep, |s|);
    }
  }

  /** A piece free of the separator character followed by the separator splits off as the first piece. */
  lemma SplitAfter(p: string, c: char, rest: string)
    requires !Contains(p, [c])
    ensures Split(p + [c] + rest, [c]) == [p] + Split(rest, [c])
  {
    var s := p + [c] + rest;
    var i := Find(s, [c]);
    assert OccursAt(s, [c], |p|) by { assert s[|p|..|p| + 1] == [c]; }
    forall j | 0 <= j < |p|
      ensures !OccursAt(s, [c], j)
    {
      assert !OccursAt(p, [c], j);
      assert p[j..j + 1] == [p[j]] && s[j..j + 1] == [s[j]];
    }
    assert i == |p|;
    assert s[..i] == p && s[i + 1..] == rest;
  }

  /** For a one-character separator, splitting undoes joining pieces that do not contain it. */
  lemma {:induction false} JoinSplit(parts: seq<string>, c: char)
    requires |parts| >= 1
    requires forall k :: 0 <= k < |parts| ==> !Contains(parts[k], [c])
    ensures Split(Join(parts, [c]), [c]) == parts
    decreases |parts|
  {
    if |parts| == 1 {
      assert Find(parts[0], [c]) < 0;
      assert Split(parts[0], [c]) == [parts[0]];
    } else {
      var rest := Join(parts[1..], [c]);
      assert Join(parts, [c]) == parts[0] + [c] + rest;
      JoinSplit(parts[1..], c);
      SplitAfter(parts[0], c, rest);
      assert parts == [parts[0]] + parts[1..];
    }
  }

  /** A one-character string occurs in `s` exactly when the character does. */
  lemma ContainsChar(s: string, c: char)
    ensures Contains(s, [c]) <==> c in s
  {
    if Contains(s, [c]) {
      var k := Find(s, [c]);
      assert s[k..k + 1] == [c];
      assert s[k] == c;
    }
    if c in s {
      var k :| 0 <= k < |s| && s[k] == c;
      assert s[k..k + 1] == [c];
      assert OccursAt(s, [c], k);
      assert Find(s, [c]) >= 0;
    }
  }

  /** Splitting on a character yields one piece more than the character's occurrences. */
  lemma {:induction false} SplitCount(s: string, c: char)
    ensures |Split(s, [c])| == multiset(s)[c] + 1
    decreases |s|
  {
    var i := Find(s, [c]);
    if i < 0 {
      ContainsChar(s, c);
    } else {
      var tail := s[i + 1..];
      SplitCount(tail, c);
      BeforeFirstOccurrence(s, [c], i);
      ContainsChar(s[..i], c);
      assert s[i..i + 1] == [c];
      Cut(s, i);
    }
  }

  /** The elements of `s` are those before `i`, the one at `i` and those after it. */
  lemma Cut<T>(s: seq<T>, i: nat)
    requires i < |s|
    ensures multiset(s) == multiset(s[..i]) + multiset{s[i]} + multiset(s[i + 1..])
  {
    assert s == s[..i] + [s[i]] + s[i + 1..];
  }

  /** Field `k` of `s.split(sep)`, or None where Python's indexing raises IndexError. */
  function Field(s: string, sep: char, k: nat): Option<string>
  {
    var parts := Split(s, [sep]);
    if k < |parts| then Some(parts[k]) else None
  }

  /** Field `k` exists exactly when `s` holds at least `k` separators, and it holds none. */
  lemma FieldSpec(s: string, sep: char, k: nat)
    ensures Field(s, sep, k).Some? <==> k <= multiset(s)[sep]
    ensures Field(s, sep, k).Some? ==> sep !in Field(s, sep, k).value
  {
    SplitCount(s, sep);
    var parts := Split(s, [sep]);
    if k < |parts| {
      SplitPiecesClean(s, [sep]);
      ContainsChar(parts[k], sep);
    }
  }

  /** Field `k` of pieces joined by a character none of them holds is piece `k`. */
  lemma FieldOfJoin(parts: seq<string>, sep: char, k: nat)
    requires |parts| >= 1
    requires forall j :: 0 <= j < |parts| ==> sep !in parts[j]
    ensures Field(Join(parts, [sep]), sep, k) == if k < |parts| then Some(parts[k]) else None
  {
    forall j | 0 <= j < |parts|
      ensures !Contains(parts[j], [sep])
    {
      ContainsChar(parts[j], sep);
    }
    JoinSplit(parts, sep);
  }

  /** Cutting a separator-free prefix and the separator after it shifts the fields by one. */
  lemma FieldAfter(p: string, sep: char, rest: string, k: nat)
    requires sep !in p
    ensures Field(p + [sep] + rest, sep, k + 1) == Field(rest, sep, k)
  {
    ContainsChar(p, sep);
    SplitAfter(p, sep, rest);
  }

  /** The text between the first separator and the next one (or the end) is field 1. */
  lemma SecondField(s: string, c0: string, w: string, rest: string, sep: char)
    requires s == c0 + [sep] + (w + rest)
    requires sep !in c0 && sep !in w && (rest == [] || rest[0] == sep)
    ensures Field(s, sep, 1) == Some(w)
  {
    FieldAfter(c0, sep, w + rest, 0);
    FirstField(w, sep, rest);
  }

  /** The text up to the first separator (or the end) is field 0. */
  lemma FirstField(w: string, sep: char, rest: string)
    requires sep !in w && (rest == [] || rest[0] == sep)
    ensures Field(w + rest, sep, 0) == Some(w)
  {
    if rest == [] {
      assert w + rest == Join([w], [sep]);
      FieldOfJoin([w], sep, 0);
    } else {
      assert w + rest == w + [sep] + rest[1..];
      ContainsChar(w, sep);
      SplitAfter(w, sep, rest[1..]);
    }
  }

  /**
   * Python's `s.replace(sig, '')`: every occurrence of `sig`, found scanning left to
   * right without overlap, is deleted; an empty `sig` leaves `s` as it is.
   */
  function RemoveAll(s: string, sig: string): (r: string)
  {
    if sig == [] then s else Concat(Split(s, sig))
  }

  /**
   * `RemoveAll` keeps exactly the pieces between the occurrences of `sig`: `s` is
   * those pieces joined by `sig`, and none of them contains `sig`.
   */
  lemma RemoveAllPieces(s: string, sig: string)
    requires sig != []
    ensures var pieces := Split(s, sig);
      && Join(pieces, sig) == s
      && RemoveAll(s, sig) == Concat(pieces)
      && forall k :: 0 <= k < |pieces| ==> !Contains(pieces[k], sig)
  {
    SplitJoin(s, sig);
    SplitPiecesClean(s, sig);
  }

  /** A signature that occurs exactly once is cut out, leaving what surrounds it. */
  lemma RemoveOnce(x: string, sig: string, tail: string)
    requires sig != []
    requires forall j :: OccursAt(x + sig + tail, sig, j) <==> j == |x|
    ensures RemoveAll(x + sig + tail, sig) == x + tail
  {
    var p := x + sig + tail;
    assert OccursAt(p, sig, |x|);
    assert Find(p, sig) == |x|;
    forall t | 0 <= t
      ensures OccursAt(tail, sig, t) == OccursAt(p, sig, |x| + |sig| + t)
    {
      if t + |sig| <= |tail| {
        assert p[|x| + |sig| + t..|x| + |sig| + t + |sig|] == tail[t..t + |sig|];
      }
    }
    RemoveAllAbsent(tail, sig);
    assert p[..|x|] == x && p[|x| + |sig|..] == tail;
    assert Split(p, sig) == [x] + Split(tail, sig);
  }

  /** A string that does not contain the signature is left unchanged. */
  lemma RemoveAllAbsent(s: string, sig: string)
    requires !Contains(s, sig)
    ensures RemoveAll(s, sig) == s
  {
    if sig != [] {
      assert Split(s, sig) == [s];
      assert Concat([s]) == s + Concat([]);
    }
  }

  // --- strip() ---

  /** The characters Python 2's `str.strip()` removes. */
  predicate IsSpace(c: char) {
    c == ' ' || c == '\t' || c == '\n' || c == '\r' || c == '\U{0B}' || c == '\U{0C}'
  }

  predicate AllSpace(s: string) {
    forall k :: 0 <= k < |s| ==> IsSpace(s[k])
  }

  function LeadingSpace(s: string): (n: nat)
    ensures n <= |s| && AllSpace(s[..n])
    ensures n < |s| ==> !IsSpace(s[n])
  {
    if s == [] || !IsSpace(s[0]) then 0 else 1 + LeadingSpace(s[1..])
  }

  function TrailingSpace(s: string): (n: nat)
    ensures n <= |s| && AllSpace(s[|s| - n..])
    ensures n < |s| ==> !IsSpace(s[|s| - n - 1])
  {
    if s == [] || !IsSpace(s[|s| - 1]) then 0 else 1 + TrailingSpace(s[..|s| - 1])
  }

  /**
   * Python's `s.strip()`: `s` is whitespace, then the result, then whitespace, and the
   * result neither begins nor ends with whitespace.
   */
  function Strip(s: string): (r: string)
    ensures exists i :: 0 <= i <= |s| - |r| && s[i..i + |r|] == r
                     && AllSpace(s[..i]) && AllSpace(s[i + |r|..])
    ensures r != [] ==> !IsSpace(r[0]) && !IsSpace(r[|r| - 1])
  {
    var lead := LeadingSpace(s);
    var rest := s[lead..];
    var trail := TrailingSpace(rest);
    var r := s[lead..|s| - trail];
    assert rest[|rest| - trail..] == s[lead + |r|..];
    assert r != [] ==> r[0] == s[lead] && r[|r| - 1] == rest[|rest| - trail - 1];
    assert s[lead..lead + |r|] == r;
    r
  }

  // --- os.path.splitext ---

  /** Python's `s.rfind(c)`: the last index holding `c`, or -1. */
  function LastIndexOf(s: string, c: char): (r: int)
    ensures -1 <= r < |s|
    ensures r >= 0 ==> s[r] == c
    ensures forall k :: r < k < |s| ==> s[k] != c
  {
    if s == [] then -1
    else
      var r := LastIndexOf(s[1..], c);
      if r >= 0 then r + 1 else if s[0] == c then 0 else -1
  }

  predicate AllDots(s: string) {
    forall k :: 0 <= k < |s| ==> s[k] == '.'
  }

  /** The last path component before the dot at `dotIndex` has a character other than a dot. */
  predicate HasStem(p: string, sepIndex: int, dotIndex: int)
    requires -1 <= sepIndex < dotIndex <= |p|
  {
    !AllDots(p[sepIndex + 1..dotIndex])
  }

  /**
   * `os.path.splitext(p)[0]`: `p` without its extension. The extension starts at the
   * last dot of the last path component, unless only dots precede it there.
   */
  function SplitExtRoot(p: string): (root: string)
    ensures |root| <= |p| && p[..|root|] == root
    ensures root == p || (LastIndexOf(p, '.') == |root| && LastIndexOf(p, '/') < |root|)
  {
    var sepIndex := LastIndexOf(p, '/');
    var dotIndex := LastIndexOf(p, '.');
    if dotIndex > sepIndex && HasStem(p, sepIndex, dotIndex) then p[..dotIndex] else p
  }

  lemma LastIndexAfterDot(x: string, e: string, c: char)
    requires forall k :: 0 <= k < |e| ==> e[k] != '.' && e[k] != '/'
    requires c == '.' || c == '/'
    ensures LastIndexOf(x + ['.'] + e, c) == if c == '.' then |x| else LastIndexOf(x, c)
  {
    var p := x + ['.'] + e;
    var r := LastIndexOf(x, c);
    var r' := LastIndexOf(p, c);
    assert forall k :: |x| < k < |p| ==> p[k] == e[k - |x| - 1];
    assert p[|x|] == '.';
    if c == '/' {
      assert r' < |x|;
      assert r' >= 0 ==> x[r'] == c;
      assert r >= 0 ==> p[r] == c;
    }
  }

  /**
   * A name `x.e`, with an extension `e` free of dots and slashes, loses exactly `.e`,
   * provided the last component of `x` has a character other than a dot (at `k`).
   */
  lemma SplitExtRootOf(x: string, e: string, k: nat)
    requires forall j :: 0 <= j < |e| ==> e[j] != '.' && e[j] != '/'
    requires LastIndexOf(x, '/') < k < |x| && x[k] != '.'
    ensures SplitExtRoot(x + ['.'] + e) == x
  {
    var p := x + ['.'] + e;
    assert p[..|x|] == x && p[k] == x[k];
    LastIndexAfterDot(x, e, '.');
    LastIndexAfterDot(x, e, '/');
    var r := LastIndexOf(x, '/');
    StemAt(p, r, |x|, k);
    SplitExtRootAt(p, r, |x|);
  }

  /** A character other than a dot between the separator and the dot makes a stem. */
  lemma StemAt(p: string, sepIndex: int, dotIndex: int, k: int)
    requires -1 <= sepIndex < k < dotIndex <= |p| && p[k] != '.'
    ensures HasStem(p, sepIndex, dotIndex)
  {
    assert p[sepIndex + 1..dotIndex][k - sepIndex - 1] == p[k];
  }

  /** Where the last dot follows the last '/' and a stem, the root ends at that dot. */
  lemma SplitExtRootAt(p: string, sepIndex: int, dotIndex: int)
    requires LastIndexOf(p, '/') == sepIndex < dotIndex == LastIndexOf(p, '.')
    requires HasStem(p, sepIndex, dotIndex)
    ensures SplitExtRoot(p) == p[..dotIndex]
  {
  }

  // --- ordering ---

  /** Python's `<` on strings: lexicographic by character code. */
  predicate LexLess(a: string, b: string)
    decreases |a|
  {
    if a == [] then b != []
    else b != [] && (a[0] < b[0] || (a[0] == b[0] && LexLess(a[1..], b[1..])))
  }

  lemma {:induction false} LexAsymmetric(a: string, b: string)
    requires LexLess(a, b)
    ensures !LexLess(b, a) && a != b
    decreases |a|
  {
    if a != [] && a[0] == b[0] {
      LexAsymmetric(a[1..], b[1..]);
      assert a == [a[0]] + a[1..] && b == [b[0]] + b[1..];
    }
  }

  lemma {:induction false} LexTransitive(a: string, b: string, c: string)
    requires LexLess(a, b) && LexLess(b, c)
    ensures LexLess(a, c)
    decreases |a|
  {
    if a != [] && a[0] == b[0] && b[0] == c[0] {
      LexTransitive(a[1..], b[1..], c[1..]);
    }
  }

  lemma {:induction false} LexTotal(a: string, b: string)
    requires a != b
    ensures LexLess(a, b) || LexLess(b, a)
    decreases |a|
  {
    if a != [] && b != [] && a[0] == b[0] {
      assert a == [a[0]] + a[1..] && b == [b[0]] + b[1..];
      LexTotal(a[1..], b[1..]);
    }
  }
}
