/**
 * Reading the tabular BLAST report (`choose_reference`): comment lines start
 * with '#', every other line names the subject accession in its second
 * tab-separated column. The tally over those rows is shared with genotyping.
 */
module Hits {
  import opened Wrappers
  import opened Text

  predicate IsComment(line: string) {
    StartsWith(line, "#")
  }

  /** The second tab-separated column; None where `split('\t')[1]` raises IndexError. */
  function Accession(line: string): Option<string> {
    Field(line, '\t', 1)
  }

  /**
   * The key extracted from each non-comment line, in file order, or None when
   * some non-comment line has no key (Python aborts with an IndexError there).
   */
  function Keys(lines: seq<string>, key: string -> Option<string>): Option<seq<string>>
  {
    if lines == [] then Some([])
    else
      var line := lines[|lines| - 1];
      match Keys(lines[..|lines| - 1], key)
      case None => None
      case Some(ks) =>
        if IsComment(line) then Some(ks)
        else if key(line).None? then None
        else Some(ks + [key(line).value])
  }

  /**
   * Keys fails exactly when a non-comment line has no key, and otherwise yields
   * one key per non-comment line, so none at all exactly when every line is a comment.
   */
  lemma {:induction false} KeysSpec(lines: seq<string>, key: string -> Option<string>)
    ensures Keys(lines, key).None? <==> exists j :: 0 <= j < |lines| && !IsComment(lines[j]) && key(lines[j]).None?
    ensures Keys(lines, key).Some? ==>
      (Keys(lines, key).value == [] <==> forall j :: 0 <= j < |lines| ==> IsComment(lines[j]))
    ensures Keys(lines, key).Some? ==>
      forall x :: x in Keys(lines, key).value ==> exists j :: 0 <= j < |lines| && !IsComment(lines[j]) && key(lines[j]) == Some(x)
    decreases |lines|
  {
    if lines != [] {
      var init := lines[..|lines| - 1];
      KeysSpec(init, key);
      assert forall j :: 0 <= j < |init| ==> init[j] == lines[j];
    }
  }

  /** The non-comment lines, in file order. */
  function HitRows(lines: seq<string>): seq<string>
  {
    if lines == [] then []
    else
      var line := lines[|lines| - 1];
      HitRows(lines[..|lines| - 1]) + (if IsComment(line) then [] else [line])
  }

  /**
   * When no line fails, key `j` is the key of the `j`-th non-comment line: one
   * key per hit row, in file order.
   */
  lemma {:induction false} KeysRows(lines: seq<string>, key: string -> Option<string>)
    requires Keys(lines, key).Some?
    ensures |Keys(lines, key).value| == |HitRows(lines)|
    ensures forall j :: 0 <= j < |HitRows(lines)| ==> key(HitRows(lines)[j]) == Some(Keys(lines, key).value[j])
    decreases |lines|
  {
    if lines != [] {
      KeysRows(lines[..|lines| - 1], key);
    }
  }

  /** A failure on a prefix of the file is a failure of the whole file. */
  lemma {:induction false} KeysPrefixNone(lines: seq<string>, key: string -> Option<string>, i: nat)
    requires i <= |lines| && Keys(lines[..i], key).None?
    ensures Keys(lines, key).None?
    decreases |lines| - i
  {
    if i < |lines| {
      assert lines[..i + 1][..i] == lines[..i];
      KeysPrefixNone(lines, key, i + 1);
    } else {
      assert lines[..i] == lines;
    }
  }

  /** The frequency dict: one entry per distinct key, holding its number of occurrences. */
  function Tally(xs: seq<string>): (m: map<string, nat>)
    ensures forall k :: k in m <==> k in xs
    ensures forall k :: k in m ==> m[k] == multiset(xs)[k]
  {
    if xs == [] then map[]
    else
      var init := xs[..|xs| - 1];
      var x := xs[|xs| - 1];
      assert xs == init + [x];
      var m := Tally(init);
      m[x := if x in m then m[x] + 1 else 1]
  }

  /** How the keys of a prefix grow by one line. */
  lemma KeysStep(lines: seq<string>, key: string -> Option<string>, i: nat)
    requires i < |lines|
    ensures Keys(lines[..i + 1], key) ==
      match Keys(lines[..i], key)
      case None => None
      case Some(ks) =>
        if IsComment(lines[i]) then Some(ks)
        else if key(lines[i]).None? then None
        else Some(ks + [key(lines[i]).value])
  {
    assert lines[..i + 1][..i] == lines[..i] && lines[..i + 1][i] == lines[i];
  }

  /** Counting one more occurrence. */
  lemma TallySnoc(xs: seq<string>, x: string)
    ensures Tally(xs + [x]) == Tally(xs)[x := if x in Tally(xs) then Tally(xs)[x] + 1 else 1]
  {
    assert (xs + [x])[..|xs|] == xs;
  }

  /**
   * The counting loop shared by `choose_reference` and `genotype`: None where
   * Python raises, otherwise the tally of the keys of the non-comment lines.
   */
  method CountKeys(lines: seq<string>, key: string -> Option<string>) returns (r: Option<map<string, nat>>)
    ensures r.None? <==> Keys(lines, key).None?
    ensures r.Some? ==> r.value == Tally(Keys(lines, key).value)
  {
    var freqs: map<string, nat> := map[];
    ghost var ks: seq<string> := [];
    var i := 0;
    while i < |lines|
      invariant 0 <= i <= |lines|
      invariant Keys(lines[..i], key) == Some(ks) && freqs == Tally(ks)
    {
      var line := lines[i];
      KeysStep(lines, key, i);
      if !IsComment(line) {
        var k := key(line);
        if k.None? {
          KeysPrefixNone(lines, key, i + 1);
          return None;
        }
        TallySnoc(ks, k.value);
        if k.value in freqs {
          freqs := freqs[k.value := freqs[k.value] + 1];
        } else {
          freqs := freqs[k.value := 1];
        }
        ks := ks + [k.value];
      }
      i := i + 1;
    }
    assert lines[..i] == lines;
    r := Some(freqs);
  }

  /**
   * `max(d, key=d.get)`: a key of greatest count. Python keeps the first maximum in
   * dict iteration order, which is unspecified; the loop visits the keys in an
   * arbitrary order and replaces the candidate only on a strictly greater count.
   */
  method ArgMax(m: map<string, nat>) returns (top: string)
    requires m != map[]
    ensures top in m && forall k :: k in m ==> m[k] <= m[top]
  {
    var rest := m.Keys;
    top :| top in rest;
    rest := rest - {top};
    while rest != {}
      invariant rest <= m.Keys && top in m
      invariant forall k :: k in m && k !in rest ==> m[k] <= m[top]
      decreases rest
    {
      var k :| k in rest;
      if m[k] > m[top] {
        top := k;
      }
      rest := rest - {k};
    }
  }

  datatype Choice = NotFound | Found(accession: string)

  /**
   * `choose_reference`: None where Python raises on a malformed row. A reference is
   * found exactly when the report has a non-comment line, and the chosen accession
   * is one hit by the greatest number of rows.
   */
  method ChooseReference(lines: seq<string>) returns (r: Option<Choice>)
    ensures r.None? <==> exists j :: 0 <= j < |lines| && !IsComment(lines[j]) && Accession(lines[j]).None?
    ensures r.Some? ==> (r.value.Found? <==> exists j :: 0 <= j < |lines| && !IsComment(lines[j]))
    ensures r.Some? && r.value.Found? ==>
      && Keys(lines, Accession).Some?
      && var hits := Keys(lines, Accession).value;
         r.value.accession in hits && forall b :: multiset(hits)[b] <= multiset(hits)[r.value.accession]
  {
    KeysSpec(lines, Accession);
    var counts := CountKeys(lines, Accession);
    if counts.None? {
      return None;
    }
    var hits := Keys(lines, Accession).value;
    if hits != [] {
      assert hits[0] in counts.value;
    }
    if counts.value == map[] {
      return Some(NotFound);
    }
    var top := ArgMax(counts.value);
    forall b ensures multiset(hits)[b] <= multiset(hits)[top] {
      if b in counts.value {
        assert counts.value[b] <= counts.value[top];
      }
    }
    r := Some(Found(top));
  }
}
