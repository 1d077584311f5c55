/**
 * Extraction of the chosen reference from the bundled FASTA database
 * (`extract_reference`): a line scan that switches on at every header naming
 * the accession and off at every other header, accumulating stripped lines.
 */
module Fasta {
  import opened Text

  predicate IsHeader(line: string) {
    StartsWith(line, ">")
  }

  /** The scan state: inside a wanted record or not, and the sequence gathered so far. */
  datatype Scan = Scan(inside: bool, reference: string)

  /** One iteration of the scanning loop. */
  function Step(acc: string, st: Scan, line: string): Scan {
    if IsHeader(line) then Scan(Contains(line, acc), st.reference)
    else if st.inside then Scan(true, st.reference + Strip(line))
    else st
  }

  /** The scan over a whole file, from a given state. */
  function Run(acc: string, st: Scan, lines: seq<string>): Scan
    decreases |lines|
  {
    if lines == [] then st else Run(acc, Step(acc, st, lines[0]), lines[1..])
  }

  lemma {:induction false} RunSnoc(acc: string, st: Scan, lines: seq<string>, line: string)
    ensures Run(acc, st, lines + [line]) == Step(acc, Run(acc, st, lines), line)
    decreases |lines|
  {
    if lines == [] {
      assert Run(acc, st, [line]) == Run(acc, Step(acc, st, line), []);
    } else {
      assert (lines + [line])[1..] == lines[1..] + [line];
      RunSnoc(acc, Step(acc, st, lines[0]), lines[1..], line);
    }
  }

  /** A database record: its header line and the sequence lines up to the next header. */
  datatype FastaRecord = FastaRecord(header: string, body: seq<string>)

  /** The number of leading lines before the first header. */
  function BodyLength(lines: seq<string>): (n: nat)
    ensures n <= |lines|
  {
    if lines == [] || IsHeader(lines[0]) then 0 else 1 + BodyLength(lines[1..])
  }

  /** The leading lines counted are exactly those before the first header. */
  lemma {:induction false} BodyLengthSpec(lines: seq<string>)
    ensures var n := BodyLength(lines);
      && (forall j :: 0 <= j < n ==> !IsHeader(lines[j]))
      && (n < |lines| ==> IsHeader(lines[n]))
    decreases |lines|
  {
    if lines != [] && !IsHeader(lines[0]) {
      BodyLengthSpec(lines[1..]);
      forall j | 1 <= j < BodyLength(lines) ensures !IsHeader(lines[j]) {
        assert lines[j] == lines[1..][j - 1];
      }
    }
  }

  /** The records of a file; lines before the first header belong to none. */
  function Records(lines: seq<string>): seq<FastaRecord>
    decreases |lines|
  {
    var n := BodyLength(lines);
    if n == |lines| then []
    else
      var rest := lines[n + 1..];
      var m := BodyLength(rest);
      [FastaRecord(lines[n], rest[..m])] + Records(rest[m..])
  }

  /** A file without a header holds no record. */
  lemma NoRecords(lines: seq<string>)
    requires BodyLength(lines) == |lines|
    ensures Records(lines) == []
  {}

  /** A record starts at a header line, and none of its sequence lines is a header. */
  predicate HeaderOnlyAtStart(r: FastaRecord) {
    IsHeader(r.header) && forall j :: 0 <= j < |r.body| ==> !IsHeader(r.body[j])
  }

  /** The first record of a file that has a header. */
  lemma FirstRecord(lines: seq<string>)
    requires BodyLength(lines) < |lines|
    ensures var n := BodyLength(lines);
      var rest := lines[n + 1..];
      var m := BodyLength(rest);
      && Records(lines) == [FastaRecord(lines[n], rest[..m])] + Records(rest[m..])
      && HeaderOnlyAtStart(FastaRecord(lines[n], rest[..m]))
  {
    var rest := lines[BodyLength(lines) + 1..];
    var m := BodyLength(rest);
    BodyLengthSpec(lines);
    BodyLengthSpec(rest);
    forall j | 0 <= j < m ensures !IsHeader(rest[..m][j]) {
      assert rest[..m][j] == rest[j];
    }
  }

  /** Header lines never contribute sequence: every record keeps its header apart from its body. */
  lemma {:induction false} RecordBodies(lines: seq<string>)
    ensures forall r :: r in Records(lines) ==> HeaderOnlyAtStart(r)
    decreases |lines|
  {
    var n := BodyLength(lines);
    if n == |lines| {
      NoRecords(lines);
    } else {
      var rest := lines[n + 1..];
      var m := BodyLength(rest);
      var first, later := FastaRecord(lines[n], rest[..m]), Records(rest[m..]);
      FirstRecord(lines);
      RecordBodies(rest[m..]);
      forall r | r in [first] + later ensures HeaderOnlyAtStart(r) {
        if r != first {
          assert r in later;
        }
      }
    }
  }

  /** The concatenation of the stripped lines. */
  function StripAll(lines: seq<string>): string {
    if lines == [] then "" else Strip(lines[0]) + StripAll(lines[1..])
  }

  /** The reference as a function of the records: the stripped bodies of those whose header names the accession. */
  function Extracted(acc: string, recs: seq<FastaRecord>): string {
    if recs == [] then ""
    else (if Contains(recs[0].header, acc) then StripAll(recs[0].body) else "") + Extracted(acc, recs[1..])
  }

  /** Over header-free lines the scan keeps its mode and appends their stripped text only when inside. */
  lemma {:induction false} RunBody(acc: string, inside: bool, ref: string, body: seq<string>)
    requires forall j :: 0 <= j < |body| ==> !IsHeader(body[j])
    ensures Run(acc, Scan(inside, ref), body) == Scan(inside, ref + (if inside then StripAll(body) else ""))
    decreases |body|
  {
    if body != [] {
      var next := if inside then ref + Strip(body[0]) else ref;
      assert !IsHeader(body[0]);
      assert Step(acc, Scan(inside, ref), body[0]) == Scan(inside, next);
      assert Run(acc, Scan(inside, ref), body) == Run(acc, Scan(inside, next), body[1..]);
      RunBody(acc, inside, next, body[1..]);
      if inside {
        assert StripAll(body) == Strip(body[0]) + StripAll(body[1..]);
        Assoc(ref, Strip(body[0]), StripAll(body[1..]));
      } else {
        assert ref + "" == ref;
      }
    }
  }

  lemma {:induction false} RunSplit(acc: string, st: Scan, a: seq<string>, b: seq<string>)
    ensures Run(acc, st, a + b) == Run(acc, Run(acc, st, a), b)
    decreases |a|
  {
    if a == [] {
      assert a + b == b;
    } else {
      assert (a + b)[0] == a[0];
      assert (a + b)[1..] == a[1..] + b;
      RunSplit(acc, Step(acc, st, a[0]), a[1..], b);
    }
  }

  /**
   * The scan from any state: the leading header-free lines are taken or skipped
   * according to the starting mode, then every record contributes its stripped
   * body exactly when its header names the accession.
   */
  lemma {:induction false} RunRecords(acc: string, inside: bool, ref: string, lines: seq<string>)
    ensures Run(acc, Scan(inside, ref), lines).reference ==
      ref + (if inside then StripAll(lines[..BodyLength(lines)]) else "") + Extracted(acc, Records(lines))
    decreases |lines|
  {
    var n := BodyLength(lines);
    var ref' := ref + (if inside then StripAll(lines[..n]) else "");
    RunLeading(acc, inside, ref, lines);
    if n == |lines| {
      assert lines[n..] == [];
      NoRecords(lines);
    } else {
      RunHeader(acc, inside, ref', lines, n);
    }
  }

  /** The scan over the lines before the first header keeps its mode and takes them only when inside. */
  lemma RunLeading(acc: string, inside: bool, ref: string, lines: seq<string>)
    ensures var n := BodyLength(lines);
      Run(acc, Scan(inside, ref), lines) ==
        Run(acc, Scan(inside, ref + (if inside then StripAll(lines[..n]) else "")), lines[n..])
  {
    var n := BodyLength(lines);
    var head, tail := lines[..n], lines[n..];
    assert lines == head + tail;
    RunSplit(acc, Scan(inside, ref), head, tail);
    BodyLengthSpec(lines);
    RunBody(acc, inside, ref, head);
  }

  /** The step of `RunRecords` at the first header, at index `n`. */
  lemma {:induction false} RunHeader(acc: string, inside: bool, ref': string, lines: seq<string>, n: nat)
    requires n == BodyLength(lines) < |lines|
    ensures Run(acc, Scan(inside, ref'), lines[n..]).reference == ref' + Extracted(acc, Records(lines))
    decreases |lines|, 0
  {
    var rest := lines[n + 1..];
    var m := BodyLength(rest);
    var hit := Contains(lines[n], acc);
    var body := if hit then StripAll(rest[..m]) else "";
    BodyLengthSpec(lines);
    assert lines[n..][0] == lines[n] && lines[n..][1..] == rest;
    assert Run(acc, Scan(inside, ref'), lines[n..]) == Run(acc, Scan(hit, ref'), rest);
    RunRecords(acc, hit, ref', rest);
    RestRecords(rest);
    var later := Extracted(acc, Records(rest[m..]));
    assert Records(lines) == [FastaRecord(lines[n], rest[..m])] + Records(rest[m..]);
    assert Extracted(acc, Records(lines)) == body + later;
    Assoc(ref', body, later);
  }

  /** Dropping a record's body lines does not change the records that follow. */
  lemma RestRecords(rest: seq<string>)
    ensures Records(rest) == Records(rest[BodyLength(rest)..])
  {
    var m := BodyLength(rest);
    var tail := rest[m..];
    BodyLengthSpec(rest);
    assert BodyLength(tail) == 0;
    if m < |rest| {
      assert tail[0 + 1..] == rest[m + 1..];
    }
  }

  /**
   * `extract_reference`: the reference sequence, the text written to the
   * reference FASTA file and its length, as the scanning loop computes them.
   */
  method ExtractReference(acc: string, db: seq<string>) returns (reference: string, written: string, length: nat)
    ensures reference == Extracted(acc, Records(db))
    ensures written == ">" + acc + "\n" + reference && length == |reference|
  {
    var st := Scan(false, "");
    var i := 0;
    while i < |db|
      invariant 0 <= i <= |db|
      invariant st == Run(acc, Scan(false, ""), db[..i])
    {
      var line := db[i];
      RunSnoc(acc, Scan(false, ""), db[..i], line);
      assert db[..i + 1] == db[..i] + [line];
      if IsHeader(line) {
        st := Scan(Contains(line, acc), st.reference);
      } else if st.inside {
        st := Scan(true, st.reference + Strip(line));
      }
      i := i + 1;
    }
    assert db[..i] == db;
    RunRecords(acc, false, "", db);
    reference := st.reference;
    written := ">" + acc + "\n" + reference;
    length := |reference|;
  }
}
