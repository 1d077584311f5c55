/**
 * Genotyping from the BLAST report (`genotype`): the genotype of a hit is the
 * part of its accession after the first '_' and before the next '.', the hits
 * are tallied per genotype, and the report lists every genotype with its
 * proportion, largest proportion first.
 */
module Genotyping {
  import opened Wrappers
  import opened Text
  import opened Hits

  /** `line.split('\t')[1].split('_')[1].split('.')[0]`; None where an index is out of range. */
  function GenotypeOf(line: string): Option<string> {
    match Field(line, '\t', 1)
    case None => None
    case Some(acc) =>
      match Field(acc, '_', 1)
      case None => None
      case Some(token) => Field(token, '.', 0)
  }

  /**
   * A hit whose second column is `p_gd` followed by `u`, where the prefix `p` has
   * no '_', the genotype `g` is followed by nothing or by a '.', and `gd` ends at
   * the next '_' (or the column's end), has genotype `g`.
   */
  lemma GenotypeOfHit(c0: string, p: string, g: string, d: string, u: string, more: string)
    requires '\t' !in c0 && '\t' !in p && '\t' !in g + d && '\t' !in u
    requires '_' !in p && '_' !in g + d && '.' !in g
    requires d == "" || d[0] == '.'
    requires u == "" || u[0] == '_'
    requires more == "" || more[0] == '\t'
    ensures GenotypeOf(c0 + "\t" + ((p + "_" + ((g + d) + u)) + more)) == Some(g)
  {
    var acc := p + "_" + ((g + d) + u);
    var line := c0 + "\t" + (acc + more);
    SecondField(line, c0, acc, more, '\t');
    SecondField(acc, p, g + d, u, '_');
    FirstField(g, '.', d);
    assert GenotypeOf(line) == Field(g + d, '.', 0);
  }

  /** One line of the genotype report: name, proportion in hundredths of a percent, hit count. */
  datatype Record = Record(name: string, hundredths: int, count: nat)

  /**
   * `round(count / n_reads * 1e4, 2)` in hundredths, with `n_reads` the line count
   * of the interleaved reads divided by four; so 4000000 * count / lines rounded
   * to the nearest integer, a half rounding away from zero.
   */
  function Hundredths(count: nat, lines: nat): (h: int)
    requires lines > 0
    ensures 2 * lines * h - lines <= 2 * 4000000 * count < 2 * lines * h + lines
  {
    (2 * 4000000 * count + lines) / (2 * lines)
  }

  /** Rounding never lets a smaller count show a larger proportion. */
  lemma HundredthsMonotone(c1: nat, c2: nat, lines: nat)
    requires lines > 0 && c1 <= c2
    ensures Hundredths(c1, lines) <= Hundredths(c2, lines)
  {
    var h1, h2 := Hundredths(c1, lines), Hundredths(c2, lines);
    assert 2 * lines * h1 - lines <= 2 * 4000000 * c2 < 2 * lines * h2 + lines;
    assert lines * (h1 - h2) < lines;
    UnitBound(lines, h1 - h2);
  }

  lemma UnitBound(a: int, x: int)
    requires a > 0 && a * x < a
    ensures x <= 0
  {}

  /** The report order: `reversed(sorted(items, key=(proportion, name)))`. */
  predicate Before(a: Record, b: Record) {
    a.hundredths > b.hundredths || (a.hundredths == b.hundredths && LexLess(b.name, a.name))
  }

  predicate Descending(rs: seq<Record>) {
    forall i, j :: 0 <= i < j < |rs| ==> Before(rs[i], rs[j])
  }

  predicate DistinctLabels(rs: seq<Record>) {
    forall i, j :: 0 <= i < j < |rs| ==> rs[i].name != rs[j].name
  }

  lemma BeforeAsymmetric(a: Record, b: Record)
    requires Before(a, b)
    ensures !Before(b, a) && a != b
  {
    if a.hundredths == b.hundredths {
      LexAsymmetric(b.name, a.name);
    }
  }

  lemma BeforeTransitive(a: Record, b: Record, c: Record)
    requires Before(a, b) && Before(b, c)
    ensures Before(a, c)
  {
    if a.hundredths == b.hundredths == c.hundredths {
      LexTransitive(c.name, b.name, a.name);
    }
  }

  lemma BeforeTotal(a: Record, b: Record)
    requires a.name != b.name
    ensures Before(a, b) || Before(b, a)
  {
    LexTotal(a.name, b.name);
  }

  /** Insertion into a report already in order. */
  function Insert(x: Record, rs: seq<Record>): (out: seq<Record>)
    requires Descending(rs)
    requires forall y :: y in rs ==> y.name != x.name
    ensures |out| == |rs| + 1 && Descending(out)
    ensures forall y :: y in out <==> y == x || y in rs
  {
    if rs == [] then [x]
    else if Before(x, rs[0]) then
      assert forall j :: 0 < j < |rs| ==> Before(rs[0], rs[j]);
      assert forall j :: 0 < j < |rs| ==> Before(x, rs[j]) by {
        forall j | 0 < j < |rs| ensures Before(x, rs[j]) {
          BeforeTransitive(x, rs[0], rs[j]);
        }
      }
      [x] + rs
    else
      BeforeTotal(x, rs[0]);
      var tail := Insert(x, rs[1..]);
      assert forall y :: y in tail ==> Before(rs[0], y) by {
        forall y | y in tail ensures Before(rs[0], y) {
          if y != x {
            var j :| 0 <= j < |rs[1..]| && rs[1..][j] == y;
            assert rs[j + 1] == y;
          }
        }
      }
      [rs[0]] + tail
  }

  /** `reversed(sorted(...))` as an insertion sort: the same records, in report order. */
  function Rank(items: seq<Record>): (out: seq<Record>)
    requires DistinctLabels(items)
    ensures |out| == |items| && Descending(out)
    ensures forall y :: y in out <==> y in items
  {
    if items == [] then []
    else
      var init := items[..|items| - 1];
      var last := items[|items| - 1];
      assert forall y :: y in init ==> y.name != last.name;
      Insert(last, Rank(init))
  }

  /** Of two ordered reports holding the same records, the first begins with the first record of the second. */
  lemma DescendingHead(a: seq<Record>, b: seq<Record>)
    requires Descending(a) && Descending(b) && a != []
    requires forall y :: y in a <==> y in b
    ensures b != [] && b[0] == a[0]
  {
    assert a[0] in b;
    assert b[0] in a;
    var i :| 0 <= i < |a| && a[i] == b[0];
    if i != 0 {
      var j :| 0 <= j < |b| && b[j] == a[0];
      BeforeAsymmetric(a[0], a[i]);
    }
  }

  /** With the first records equal, the rest of two ordered reports hold the same records. */
  lemma DescendingTail(a: seq<Record>, b: seq<Record>)
    requires Descending(a) && Descending(b) && a != [] && b != [] && a[0] == b[0]
    requires forall y :: y in a <==> y in b
    ensures forall y :: y in a[1..] <==> y in b[1..]
  {
    forall y | y in a[1..] ensures y in b[1..] {
      var k :| 0 <= k < |a[1..]| && a[1..][k] == y;
      BeforeAsymmetric(a[0], a[k + 1]);
      assert y in b && y != b[0];
    }
    forall y | y in b[1..] ensures y in a[1..] {
      var k :| 0 <= k < |b[1..]| && b[1..][k] == y;
      BeforeAsymmetric(b[0], b[k + 1]);
      assert y in a && y != a[0];
    }
  }

  /** Two ordered reports holding the same records are the same report. */
  lemma {:induction false} DescendingUnique(a: seq<Record>, b: seq<Record>)
    requires Descending(a) && Descending(b)
    requires forall y :: y in a <==> y in b
    ensures a == b
    decreases |a|
  {
    if a != [] {
      DescendingHead(a, b);
      DescendingTail(a, b);
      DescendingUnique(a[1..], b[1..]);
      assert a == [a[0]] + a[1..] && b == [b[0]] + b[1..];
    } else if b != [] {
      DescendingHead(b, a);
    }
  }

  /** The record of genotype `name` in a report built from `freqs`. */
  predicate Reports(freqs: map<string, nat>, lines: nat, x: Record) {
    x.name in freqs && lines > 0 && x == Record(x.name, Hundredths(freqs[x.name], lines), freqs[x.name])
  }

  /** The dict comprehension of proportions, read out in the dict's own (unspecified) order. */
  method Records(freqs: map<string, nat>, lines: nat) returns (items: seq<Record>)
    requires freqs != map[] ==> lines > 0
    ensures DistinctLabels(items)
    ensures forall x :: x in items <==> Reports(freqs, lines, x)
  {
    items := [];
    var rest := freqs.Keys;
    while rest != {}
      invariant rest <= freqs.Keys
      invariant DistinctLabels(items)
      invariant forall x :: x in items <==> Reports(freqs, lines, x) && x.name !in rest
      decreases rest
    {
      var k :| k in rest;
      items := items + [Record(k, Hundredths(freqs[k], lines), freqs[k])];
      rest := rest - {k};
    }
  }

  /** What `genotype` computes: the top genotype (unused by the caller) and the report, in order. */
  datatype Typing = Typing(top: Option<string>, report: seq<Record>)

  /**
   * `genotype`, given the BLAST report and the line count of the interleaved reads.
   * None where Python raises: a malformed hit row, or hits with zero reads to divide by.
   */
  method Genotype(blast: seq<string>, lines: nat) returns (r: Option<Typing>)
    ensures r.None? <==> Keys(blast, GenotypeOf).None? || (Keys(blast, GenotypeOf).value != [] && lines == 0)
    ensures r.Some? ==>
      && Keys(blast, GenotypeOf).Some?
      && var freqs := Tally(Keys(blast, GenotypeOf).value);
         && (r.value.top.None? <==> freqs == map[])
         && (r.value.top.Some? ==>
               r.value.top.value in freqs && forall k :: k in freqs ==> freqs[k] <= freqs[r.value.top.value])
         && Descending(r.value.report)
         && forall x :: x in r.value.report <==> Reports(freqs, lines, x)
  {
    var counts := CountKeys(blast, GenotypeOf);
    if counts.None? {
      return None;
    }
    var freqs := counts.value;
    ghost var hits := Keys(blast, GenotypeOf).value;
    if hits != [] {
      assert hits[0] in freqs;
    }
    var top: Option<string> := None;
    if freqs != map[] {
      var t := ArgMax(freqs);
      top := Some(t);
      if lines == 0 {
        return None;
      }
    }
    var items := Records(freqs, lines);
    r := Some(Typing(top, Rank(items)));
  }

  /** The report depends on the tally alone, whatever order the dict yields its genotypes in. */
  lemma ReportDeterminedByTally(freqs: map<string, nat>, lines: nat, a: seq<Record>, b: seq<Record>)
    requires Descending(a) && forall x :: x in a <==> Reports(freqs, lines, x)
    requires Descending(b) && forall x :: x in b <==> Reports(freqs, lines, x)
    ensures a == b
  {
    DescendingUnique(a, b);
  }
}
