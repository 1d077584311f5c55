/**
 * Discovery of the read files in the input directory and their pairing into
 * samples (`list_fastqs`). The directory listing is given, in the order the
 * operating system returned it.
 */
module Pairing {
  import opened Wrappers
  import opened Text

  /** The only extension accepted: the source tests this same suffix twice. */
  const FastqExt: string := ".fastq"

  datatype Direction = Forward | Reverse

  /** A forward read file and its reverse mate, as full paths. */
  type ReadPair = (string, string)

  /** What `list_fastqs` returns: both file lists and the samples keyed by name. */
  datatype Inputs = Inputs(fwd: seq<string>, rev: seq<string>, samples: map<string, ReadPair>)

  /**
   * The list a directory entry is appended to, if any. The forward signature is
   * checked first, so a name carrying both signatures counts as forward.
   */
  function Bucket(name: string, fwdSig: string, revSig: string): Option<Direction>
  {
    if !EndsWith(name, FastqExt) then None
    else if Contains(name, fwdSig) then Some(Forward)
    else if Contains(name, revSig) then Some(Reverse)
    else None
  }

  function PathOf(inDir: string, name: string): string
  {
    inDir + "/" + name
  }

  lemma PathOfInjective(inDir: string, a: string, b: string)
    requires PathOf(inDir, a) == PathOf(inDir, b)
    ensures a == b
  {
    var n := |inDir + "/"|;
    assert a == PathOf(inDir, a)[n..] && b == PathOf(inDir, b)[n..];
  }

  /** The paths the loop appends to list `d`, in listing order. */
  function Selected(inDir: string, listing: seq<string>, fwdSig: string, revSig: string, d: Direction): seq<string>
  {
    if listing == [] then []
    else
      var name := listing[|listing| - 1];
      Selected(inDir, listing[..|listing| - 1], fwdSig, revSig, d)
        + (if Bucket(name, fwdSig, revSig) == Some(d) then [PathOf(inDir, name)] else [])
  }

  /** A path is in list `d` exactly when it is the path of a listed entry bucketed as `d`. */
  lemma {:induction false} SelectedMembers(inDir: string, listing: seq<string>, fwdSig: string, revSig: string,
                                           d: Direction, x: string)
    ensures x in Selected(inDir, listing, fwdSig, revSig, d) <==>
      exists j :: 0 <= j < |listing| && x == PathOf(inDir, listing[j]) && Bucket(listing[j], fwdSig, revSig) == Some(d)
    decreases |listing|
  {
    if listing != [] {
      var init := listing[..|listing| - 1];
      SelectedMembers(inDir, init, fwdSig, revSig, d, x);
      assert forall j :: 0 <= j < |init| ==> init[j] == listing[j];
      if x in Selected(inDir, listing, fwdSig, revSig, d) && x !in Selected(inDir, init, fwdSig, revSig, d) {
        assert x == PathOf(inDir, listing[|listing| - 1]);
      }
    }
  }

  /**
   * A `.fastq` entry carrying the forward signature lands in the forward list and
   * not in the reverse list, whether or not it also carries the reverse signature.
   */
  lemma ForwardWins(inDir: string, listing: seq<string>, fwdSig: string, revSig: string, j: nat)
    requires j < |listing| && EndsWith(listing[j], FastqExt) && Contains(listing[j], fwdSig)
    ensures PathOf(inDir, listing[j]) in Selected(inDir, listing, fwdSig, revSig, Forward)
    ensures PathOf(inDir, listing[j]) !in Selected(inDir, listing, fwdSig, revSig, Reverse)
  {
    var x := PathOf(inDir, listing[j]);
    SelectedMembers(inDir, listing, fwdSig, revSig, Forward, x);
    SelectedMembers(inDir, listing, fwdSig, revSig, Reverse, x);
    forall i | 0 <= i < |listing| && x == PathOf(inDir, listing[i])
      ensures Bucket(listing[i], fwdSig, revSig) == Some(Forward)
    {
      PathOfInjective(inDir, listing[i], listing[j]);
    }
  }

  /** Python 2's `zip`: pairs by position, as many as the shorter list has. */
  function Zip(f: seq<string>, r: seq<string>): (pairs: seq<ReadPair>)
    ensures |pairs| == if |f| < |r| then |f| else |r|
    ensures forall j :: 0 <= j < |pairs| ==> pairs[j] == (f[j], r[j])
  {
    if f == [] || r == [] then [] else [(f[0], r[0])] + Zip(f[1..], r[1..])
  }

  /** The sample name of a pair: the forward path with every signature removed, then its extension. */
  function SampleKey(fwdPath: string, fwdSig: string): string
  {
    SplitExtRoot(RemoveAll(fwdPath, fwdSig))
  }

  /** Dropping the extension of a `.fastq` file whose stem has no '/' and is not all dots. */
  lemma StemOf(inDir: string, stem: string)
    requires '/' !in stem && !AllDots(stem)
    ensures SplitExtRoot(PathOf(inDir, stem) + FastqExt) == PathOf(inDir, stem)
  {
    var y := PathOf(inDir, stem);
    var m :| 0 <= m < |stem| && stem[m] != '.';
    assert forall j :: |inDir| < j < |y| ==> y[j] == stem[j - |inDir| - 1];
    assert y[|inDir|] == '/';
    assert y + FastqExt == y + ['.'] + "fastq";
    SplitExtRootOf(y, "fastq", |inDir| + 1 + m);
  }

  /**
   * The forward file `a + sig + b + ".fastq"` in `inDir`, whose path holds the
   * signature at that one place only, names the sample `inDir/ab`, provided `ab`
   * has no '/' and is not all dots.
   */
  lemma SampleKeyOf(inDir: string, a: string, sig: string, b: string)
    requires sig != []
    requires forall j :: OccursAt(PathOf(inDir, a) + sig + (b + FastqExt), sig, j) <==> j == |PathOf(inDir, a)|
    requires '/' !in a + b && !AllDots(a + b)
    ensures SampleKey(PathOf(inDir, a) + sig + (b + FastqExt), sig) == PathOf(inDir, a + b)
  {
    RemoveOnce(PathOf(inDir, a), sig, b + FastqExt);
    StemOf(inDir, a + b);
    Assoc(PathOf(inDir, a), b, FastqExt);
    Assoc(inDir + "/", a, b);
  }

  /** The sample name of every pair, in order. */
  function Names(pairs: seq<ReadPair>, fwdSig: string): seq<string> {
    seq(|pairs|, j requires 0 <= j < |pairs| => SampleKey(pairs[j].0, fwdSig))
  }

  /** Position `j` holds the last occurrence of its key in `keys`. */
  ghost predicate LastOf<K>(keys: seq<K>, j: int)
    requires 0 <= j < |keys|
  {
    forall i :: j < i < |keys| ==> keys[i] != keys[j]
  }

  /**
   * A dict built by assigning `vals[j]` under `keys[j]` in order: the keys are
   * exactly those listed (the value kept for a key is `IndexLastWins`).
   */
  function Index<K(!new), V>(keys: seq<K>, vals: seq<V>): (m: map<K, V>)
    requires |keys| == |vals|
    ensures forall k :: k in m <==> k in keys
    ensures |m| <= |keys|
  {
    if keys == [] then map[]
    else
      var n := |keys| - 1;
      assert keys == keys[..n] + [keys[n]];
      Index(keys[..n], vals[..n])[keys[n] := vals[n]]
  }

  /** Where keys collide, the later value overwrites the earlier one. */
  lemma {:induction false} IndexLastWins<K(!new), V>(keys: seq<K>, vals: seq<V>, j: nat)
    requires |keys| == |vals| && j < |keys| && LastOf(keys, j)
    ensures Index(keys, vals)[keys[j]] == vals[j]
    decreases |keys|
  {
    var n := |keys| - 1;
    if j < n {
      assert LastOf(keys[..n], j) by {
        forall i | j < i < n ensures keys[..n][i] != keys[..n][j] {
          assert keys[..n][i] == keys[i];
        }
      }
      IndexLastWins(keys[..n], vals[..n], j);
      assert keys[n] != keys[j];
    }
  }

  /** The dict comprehension keying each pair by its sample name. */
  function Keyed(pairs: seq<ReadPair>, fwdSig: string): map<string, ReadPair>
  {
    Index(Names(pairs, fwdSig), pairs)
  }

  /** The forward-then-reverse bucketing loop over the directory listing. */
  method BucketFiles(inDir: string, listing: seq<string>, fwdSig: string, revSig: string)
    returns (fwd: seq<string>, rev: seq<string>)
    ensures fwd == Selected(inDir, listing, fwdSig, revSig, Forward)
    ensures rev == Selected(inDir, listing, fwdSig, revSig, Reverse)
  {
    fwd, rev := [], [];
    var i := 0;
    while i < |listing|
      invariant 0 <= i <= |listing|
      invariant fwd == Selected(inDir, listing[..i], fwdSig, revSig, Forward)
      invariant rev == Selected(inDir, listing[..i], fwdSig, revSig, Reverse)
    {
      var name := listing[i];
      assert listing[..i + 1][..i] == listing[..i];
      if EndsWith(name, FastqExt) {
        if Contains(name, fwdSig) {
          fwd := fwd + [PathOf(inDir, name)];
        } else if Contains(name, revSig) {
          rev := rev + [PathOf(inDir, name)];
        }
      }
      i := i + 1;
    }
    assert listing[..i] == listing;
  }

  /**
   * `list_fastqs`: None stands for the `ERR_READS` exit, taken exactly when one of
   * the two lists is empty, so that no pair can be formed.
   */
  method ListFastqs(inDir: string, listing: seq<string>, fwdSig: string, revSig: string)
    returns (r: Option<Inputs>)
    ensures r.None? <==> Selected(inDir, listing, fwdSig, revSig, Forward) == []
                         || Selected(inDir, listing, fwdSig, revSig, Reverse) == []
    ensures r.Some? ==>
      && r.value.fwd == Selected(inDir, listing, fwdSig, revSig, Forward)
      && r.value.rev == Selected(inDir, listing, fwdSig, revSig, Reverse)
      && r.value.samples == Keyed(Zip(r.value.fwd, r.value.rev), fwdSig)
      && 0 < |r.value.samples| <= |Zip(r.value.fwd, r.value.rev)|
  {
    var fwd, rev := BucketFiles(inDir, listing, fwdSig, revSig);
    var pairs := Zip(fwd, rev);
    var samples := Keyed(pairs, fwdSig);
    if pairs != [] {
      assert Names(pairs, fwdSig)[0] in samples;
    }
    if samples == map[] {
      return None;
    }
    r := Some(Inputs(fwd, rev, samples));
  }

}
