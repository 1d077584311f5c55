/**
 * The parameter sweeps of `normalise` and `assemble`: one normalisation per
 * (k, C) pair of the two comma-separated lists, then one assembly per
 * normalisation and per setting of the untrusted-contigs option.
 */
module Sweep {
  import opened Text

  datatype NormPerm = NormPerm(k: string, c: string)
  datatype AsmPerm = AsmPerm(k: string, c: string, uc: nat)

  /** A nested comprehension `[f(x, y) for x in xs for y in ys]`. */
  function Cross<A, B, C>(xs: seq<A>, ys: seq<B>, f: (A, B) -> C): (zs: seq<C>)
    ensures |zs| == |xs| * |ys|
  {
    if xs == [] then [] else seq(|ys|, j requires 0 <= j < |ys| => f(xs[0], ys[j])) + Cross(xs[1..], ys, f)
  }

  lemma MulSucc(a: nat, n: nat)
    requires a > 0
    ensures a * n == (a - 1) * n + n
  {}

  lemma MulBound(a: nat, b: nat, m: nat, n: nat)
    requires a < m && b < n
    ensures a * n + b < m * n
  {
    assert a * n <= (m - 1) * n;
    MulSucc(m, n);
  }

  /** Element `a * |ys| + b` of the comprehension pairs `xs[a]` with `ys[b]`: the outer loop is over `xs`. */
  lemma {:induction false} CrossAt<A, B, C>(xs: seq<A>, ys: seq<B>, f: (A, B) -> C, a: nat, b: nat)
    requires a < |xs| && b < |ys|
    ensures a * |ys| + b < |Cross(xs, ys, f)|
    ensures Cross(xs, ys, f)[a * |ys| + b] == f(xs[a], ys[b])
    decreases a
  {
    MulBound(a, b, |xs|, |ys|);
    var row := seq(|ys|, j requires 0 <= j < |ys| => f(xs[0], ys[j]));
    var rest := Cross(xs[1..], ys, f);
    assert Cross(xs, ys, f) == row + rest;
    if a > 0 {
      CrossAt(xs[1..], ys, f, a - 1, b);
      MulSucc(a, |ys|);
      assert (row + rest)[a * |ys| + b] == rest[(a - 1) * |ys| + b];
    }
  }

  function MakeNorm(k: string, c: string): NormPerm {
    NormPerm(k, c)
  }

  /** `norm_perms`: every k of `kList` with every C of `cList`, k in the outer loop. */
  function NormPlan(kList: string, cList: string): seq<NormPerm> {
    Cross(Split(kList, ","), Split(cList, ","), MakeNorm)
  }

  /** The normalisation sweep is never empty and holds one run per (k, C) pair, in list order. */
  lemma NormPlanShape(kList: string, cList: string, a: nat, b: nat)
    ensures var ks, cs := Split(kList, ","), Split(cList, ",");
      && |NormPlan(kList, cList)| == |ks| * |cs| >= 1
      && (a < |ks| && b < |cs| ==> a * |cs| + b < |ks| * |cs| && NormPlan(kList, cList)[a * |cs| + b] == NormPerm(ks[a], cs[b]))
  {
    var ks, cs := Split(kList, ","), Split(cList, ",");
    MulBound(0, 0, |ks|, |cs|);
    if a < |ks| && b < |cs| {
      CrossAt(ks, cs, MakeNorm, a, b);
    }
  }

  /** The untrusted-contigs settings tried: with and without when a reference was found and asked for. */
  function UcValues(referenceFound: bool, untrustedContigs: bool): (ucs: seq<nat>)
    ensures ucs == [1, 0] || ucs == [0]
    ensures 1 in ucs <==> referenceFound && untrustedContigs
  {
    if referenceFound && untrustedContigs then [1, 0] else [0]
  }

  function MakeAsm(p: NormPerm, uc: nat): AsmPerm {
    AsmPerm(p.k, p.c, uc)
  }

  /** `asm_perms`: every normalisation with every untrusted-contigs setting, normalisation outermost. */
  function AsmPlan(norm: seq<NormPerm>, referenceFound: bool, untrustedContigs: bool): seq<AsmPerm> {
    Cross(norm, UcValues(referenceFound, untrustedContigs), MakeAsm)
  }

  /** Whether an assembly passes the extracted reference to SPAdes as untrusted contigs. */
  predicate UsesReference(p: AsmPerm) {
    p.uc != 0
  }

  /**
   * The assembly sweep: when the option applies, each normalisation is assembled
   * twice, first with the reference as untrusted contigs and then without;
   * otherwise once, without.
   */
  lemma AsmPlanShape(norm: seq<NormPerm>, referenceFound: bool, untrustedContigs: bool, j: nat)
    requires j < |norm|
    ensures var plan := AsmPlan(norm, referenceFound, untrustedContigs);
      if referenceFound && untrustedContigs then
        |plan| == 2 * |norm| && plan[2 * j] == AsmPerm(norm[j].k, norm[j].c, 1)
        && plan[2 * j + 1] == AsmPerm(norm[j].k, norm[j].c, 0)
      else
        |plan| == |norm| && plan[j] == AsmPerm(norm[j].k, norm[j].c, 0)
  {
    var ucs := UcValues(referenceFound, untrustedContigs);
    if referenceFound && untrustedContigs {
      CrossAt(norm, ucs, MakeAsm, j, 0);
      CrossAt(norm, ucs, MakeAsm, j, 1);
      assert j * |ucs| == 2 * j;
    } else {
      CrossAt(norm, ucs, MakeAsm, j, 0);
    }
  }

  /** The reference is handed to the assembler only when one was found and the option was given. */
  lemma {:induction false} AsmUsesReferenceOnlyIfFound(norm: seq<NormPerm>, referenceFound: bool, untrustedContigs: bool, i: nat)
    requires i < |AsmPlan(norm, referenceFound, untrustedContigs)|
    requires UsesReference(AsmPlan(norm, referenceFound, untrustedContigs)[i])
    ensures referenceFound && untrustedContigs
  {
    if !(referenceFound && untrustedContigs) {
      var j := i;
      AsmPlanShape(norm, referenceFound, untrustedContigs, j);
    }
  }
}
