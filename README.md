# SparNA pipeline driver, modelled in Dafny

`pipeline.py` assembles paired-end hepatitis C reads by running a chain of
external tools for each sample. This project models the decision-making part
of that driver; the shell commands themselves are represented only by their
exit statuses and by the files they leave behind. The modelled parts are:

- **Read-file pairing** (`list_fastqs`, module `Pairing`): forward/reverse
  bucketing of a directory listing, positional `zip`, and the dict keyed by
  sample name. `ERR_READS` is modelled as `None`.
- **Reference vote** (`choose_reference`, module `Hits`): the tally of
  second-column accessions over the non-comment rows of a BLAST report, and
  an arg-max over that tally.
- **Reference extraction** (`extract_reference`, module `Fasta`): the
  two-state line scan over the bundled FASTA database, related to a
  record-by-record definition.
- **Genotyping** (`genotype`, module `Genotyping`): the genotype token of
  each hit, the tally, the rounded proportions, and the report in
  `reversed(sorted(...))` order.
- **Coverage assessment** (`assess_coverage`, module `Coverage`): the sites
  of depth below one, the run-measuring loop, and the three-way verdict.
- **Parameter sweeps** (`normalise` and `assemble`, module `Sweep`): the
  plans built by the nested list comprehensions.
- **The driver** (`main`, module `Coordinator`): samples run one after
  another, through a fixed chain of stages. The first stage that exits or
  raises ends the whole run. The run is recorded as a `Trace`: the outcome,
  plus the events (sample, stage, step) attempted in order.
- **Python string builtins** (module `Text`): `split`, `join`, `replace`,
  `strip`, `os.path.splitext`, `in` and string `<`, as the code uses them.

Python's exceptions are modelled as outcomes, never as preconditions:

- A row without a second column makes `choose_reference` and `genotype`
  raise `IndexError`. This becomes `None` in `Hits.Keys`.
- `int()` rejecting the `wc -l` output raises before the status check.
- Trimmomatic's standard error can have fewer than 26 lines, so that
  `[25]` raises.
- A BLAST command failure raises (Biopython raises on a non-zero status).
- `genotype` divides by zero when there are hits but no reads.
- Coverage assessment can open a pileup file that `map_reads` never wrote.

In the driver, these become `Crash` at the event that raised.

Two behaviours are modelled exactly as the code has them, though the
functions' intent might suggest otherwise:

- **Tie order.** The genotype report sorts on `(proportion, name)` and then
  reverses, so equal proportions come out in *descending* name order
  (`Genotyping.Before`).
- **Uncovered runs.** The run-measuring loop of `assess_coverage` never
  appends the run still open when the loop ends. For uncovered sites
  `[1, 2, 4]` the regions are `[2]`, not `[2, 1]` (`Coverage.MeasureExamples`).

`main` also calls `map_reads(reference_path, paths, i)`, so the sample index
lands in the `threads` parameter. Every mapping is therefore written under
index 1, and coverage assessment of any later sample with a reference opens a
file that does not exist. `Coordinator.LaterReferenceCrashes` proves the
consequence: such a run never completes.

## Model

| member | source | states |
|---|---|---|
| Text.Split | pipeline.py:281-282 | `s.split(sep)` yields at least one piece |
| Text.SplitJoin | pipeline.py:281-282 | joining the pieces of a split with the separator gives back the original string |
| Text.SplitPiecesClean | pipeline.py:281-282 | no piece of a split contains the separator |
| Text.JoinSplit | pipeline.py:173 | for a one-character separator, splitting a join of separator-free pieces gives back the pieces |
| Text.SplitCount | pipeline.py:134 | splitting on a character gives one piece more than the character's occurrences |
| Text.FieldSpec | pipeline.py:134 | `s.split(sep)[k]` exists exactly when `s` holds at least `k` separators (otherwise Python raises `IndexError`), and the field holds no separator |
| Text.FieldOfJoin | pipeline.py:173 | field `k` of separator-free pieces joined by the separator is piece `k`, and there is none past the last piece |
| Text.SecondField | pipeline.py:134 | `split(sep)[1]` is the text between the first separator and the next one, or the end |
| Text.RemoveAllPieces | pipeline.py:57 | `replace(sig, '')` keeps exactly the pieces between the occurrences of `sig`, and none of them contains it |
| Text.RemoveAllAbsent | pipeline.py:57 | a name without the signature is left unchanged by `replace` |
| Text.RemoveOnce | pipeline.py:57 | a signature that occurs exactly once is cut out by `replace`, leaving the text on either side |
| Text.Strip | pipeline.py:159 | `strip()` removes only leading and trailing whitespace: the line is whitespace, the result, whitespace, and the result neither begins nor ends with whitespace |
| Text.SplitExtRoot | pipeline.py:57 | `os.path.splitext(p)[0]` is a prefix of `p`: all of `p`, or `p` cut at the last dot of its last path component |
| Text.SplitExtRootOf | pipeline.py:57 | `x.e`, with an extension free of dots and slashes, loses exactly `.e` |
| Text.LexAsymmetric | pipeline.py:181 | string `<` is asymmetric and irreflexive |
| Text.LexTransitive | pipeline.py:181 | string `<` is transitive |
| Text.LexTotal | pipeline.py:181 | any two distinct strings are ordered by `<` |
| Pairing.BucketFiles | pipeline.py:49-55 | the listing loop appends to the forward and reverse lists exactly the `Selected` paths, in listing order |
| Pairing.SelectedMembers | pipeline.py:50-55 | a path is in a list exactly when it is the path of a `.fastq` entry bucketed that way |
| Pairing.ForwardWins | pipeline.py:52-55 | an entry with the forward signature is in the forward list and not the reverse list, even if it also has the reverse signature |
| Pairing.Zip | pipeline.py:56 | `zip` gives min(\|f\|, \|r\|) pairs, matched by position |
| Pairing.StemOf | pipeline.py:57 | `splitext` of a `.fastq` path whose last component has a stem with no '/' and not all dots drops exactly `.fastq` |
| Pairing.SampleKeyOf | pipeline.py:57 | the forward file `a + sig + b + '.fastq'` in `in_dir`, with the signature only at that place in its path, is keyed `in_dir/ab` when `a + b` has no '/' and is not all dots: the signature and the extension are removed and nothing else (an all-dots `a + b`, such as the file `<sig>.fastq`, keeps its `.fastq`, by the leading-dot rule of `splitext`) |
| Pairing.Index | pipeline.py:57 | the dict's keys are exactly the sample names listed, and there are at most as many as pairs |
| Pairing.IndexLastWins | pipeline.py:57 | where two pairs share a sample name, the later pair is kept |
| Pairing.ListFastqs | pipeline.py:47-59 | `ERR_READS` exactly when one list is empty; otherwise both lists plus a non-empty dict of at most \|zip\| samples |
| Hits.KeysSpec | pipeline.py:131-134 | the keys of a report are missing (Python raises) exactly when a non-comment row has none; there are none exactly when every row is a comment; each key comes from a non-comment row |
| Hits.KeysRows | pipeline.py:131-134 | when no row raises, key `j` is the key of the `j`-th non-comment row: one key per hit row, in file order |
| Hits.Tally | pipeline.py:135-137 | the frequency dict holds each key seen, with its number of occurrences |
| Hits.CountKeys | pipeline.py:130-137 | the counting loop raises exactly when `Keys` is missing and otherwise builds the `Tally` of the keys |
| Hits.ArgMax | pipeline.py:140 | `max(d, key=d.get)` returns a key of `d` whose count no other key exceeds |
| Hits.ChooseReference | pipeline.py:128-146 | raises exactly on a row without a second column; `reference_found` exactly when a non-comment row exists; the accession is hit by a maximal number of rows |
| Fasta.BodyLengthSpec | pipeline.py:153-157 | the lines before the first header are exactly the leading non-header lines |
| Fasta.RecordBodies | pipeline.py:153-159 | every record starts at a header line, and no sequence line of a record is a header, so headers never contribute sequence |
| Fasta.RestRecords | pipeline.py:153-158 | lines before the first header belong to no record |
| Fasta.RunBody | pipeline.py:158-159 | over header-free lines the scan keeps its mode and appends their stripped text only when inside |
| Fasta.RunLeading | pipeline.py:153-159 | over the lines before the first header the scan keeps its mode and takes their stripped text only when inside |
| Fasta.RunRecords | pipeline.py:151-159 | the scan's reference is the stripped bodies of the records whose header contains the accession, concatenated in file order |
| Fasta.RunHeader | pipeline.py:154-159 | from the first header on, whatever it gathered before, the scan appends exactly the record-wise reference |
| Fasta.ExtractReference | pipeline.py:148-165 | the extracted reference equals the record-wise definition; the file written is `'>' + acc + '\n' + reference`; the length returned is its length |
| Genotyping.GenotypeOfHit | pipeline.py:173 | a hit whose second column is `p + '_' + g + d + u`, with `p` free of '_', `g` followed by nothing or a '.', and `u` empty or starting with '_', has genotype `g` |
| Genotyping.Hundredths | pipeline.py:179 | the proportion in hundredths of a percent is `4000000 * count / lines`, rounded to the nearest integer |
| Genotyping.HundredthsMonotone | pipeline.py:179 | rounding never gives a smaller count a larger proportion |
| Genotyping.BeforeAsymmetric | pipeline.py:181 | the report order is asymmetric |
| Genotyping.BeforeTransitive | pipeline.py:181 | the report order is transitive |
| Genotyping.BeforeTotal | pipeline.py:181 | records with different names are always ordered |
| Genotyping.Insert | pipeline.py:181 | inserting into an ordered report keeps it ordered and adds exactly the one record |
| Genotyping.Rank | pipeline.py:181 | `reversed(sorted(...))` yields the same records, proportion descending and ties by descending name |
| Genotyping.DescendingUnique | pipeline.py:181 | two ordered reports with the same records are identical |
| Genotyping.Records | pipeline.py:178-179 | one record per genotype with its rounded proportion and count, with distinct names, in any dict order |
| Genotyping.ReportDeterminedByTally | pipeline.py:178-181 | the report does not depend on dict iteration order |
| Genotyping.Genotype | pipeline.py:167-189 | raises exactly on a malformed hit row or on hits with zero reads; the top genotype is None exactly when there are no hits, and otherwise has a maximal count; the report holds exactly one record per genotype, in report order |
| Coverage.UncoveredMembers | pipeline.py:224-228 | a site is uncovered exactly when some row of depth below 1 names it; there are no more uncovered sites than rows |
| Coverage.MeasureCounts | pipeline.py:229-242 | closed regions plus the open one account for every uncovered site; regions are positive; the open run is never appended |
| Coverage.MeasureBreaks | pipeline.py:233-242 | one region is closed at every break between consecutive uncovered sites |
| Coverage.MeasureLargest | pipeline.py:232-237 | `largest_uncovered_region` is zero or the length of some run, and at least every run longer than one site |
| Coverage.LargestBounded | pipeline.py:232-237 | `largest_uncovered_region` is between 0 and the number of uncovered sites |
| Coverage.LargestOnContinuation | pipeline.py:229-237 | `largest_uncovered_region` stays 0 exactly when no site is one past the site before it (before the first, 0); when no later site continues a run it is 1 if the first site is 1 and 0 otherwise, although every region then has length one |
| Coverage.LargestIsLongest | pipeline.py:233-242 | whenever some run is longer than one site, the largest region is the longest run |
| Coverage.MeasureExamples | pipeline.py:233-242 | depths `[(1,0),(2,0),(3,5),(4,0)]` give sites `[1,2,4]` and regions `[2]`; a lone site other than 1 (`[5]`) leaves `largest` at 0, while the lone site 1 continues the initial `last = 0` and gives `largest` 1 |
| Coverage.Judge | pipeline.py:246-251 | all covered exactly when nothing is uncovered; above threshold exactly when the count is below (1 - 0.9) times the reference length in exact arithmetic; below threshold otherwise |
| Coverage.AssessCoverage | pipeline.py:216-252 | the loops compute the uncovered sites, the regions and the largest region as `Uncovered` and `Measure` define them, and the verdict as `Judge` |
| Sweep.Cross | pipeline.py:283 | a nested comprehension has \|xs\| * \|ys\| elements |
| Sweep.CrossAt | pipeline.py:283 | element `a * \|ys\| + b` pairs `xs[a]` with `ys[b]`, so the outer loop is over `xs` |
| Sweep.NormPlanShape | pipeline.py:281-283 | one normalisation per (k, C) pair, k outermost, and never none |
| Sweep.UcValues | pipeline.py:310-313 | uc is `[1, 0]` when a reference was found and untrusted contigs were asked for, otherwise `[0]` |
| Sweep.AsmPlanShape | pipeline.py:310-313 | each normalisation is assembled with uc=1 and then uc=0 when the option applies, otherwise once with uc=0, with its own k and C |
| Sweep.AsmUsesReferenceOnlyIfFound | pipeline.py:330-331 | `--untrusted-contigs` is added only when a reference was found and the option was given |
| Coordinator.Check | pipeline.py:86-334 | a stage check never reports completion of the whole run |
| Coordinator.CheckOutcomes | pipeline.py:86-334 | a stage exits only with its own code and only on a non-zero status; an exception is raised at the event itself; a checked stage whose command fails always ends the run |
| Coordinator.FailFast | pipeline.py:378-394 | the events attempted are a prefix of the schedule; the run completes exactly when every event passes, and otherwise ends with the outcome of the last event attempted, all earlier ones having passed |
| Coordinator.RunEvents | pipeline.py:212-214 | the loop over a list of commands stops at the first one that fails, as `Run` defines |
| Coordinator.ExtractStage | pipeline.py:385 | `extract_reference` returns the length of the record-wise reference |
| Coordinator.GenotypeStage | pipeline.py:386 | `genotype` raises exactly under `GenotypeFails` |
| Coordinator.AssessStage | pipeline.py:216-252 | `assess_coverage` raises for every sample but index 1, the only pileup `map_reads` writes; for that one it reports the uncovered sites of the pileup, their regions and largest region as `Measure` defines them, and the verdict `Judge` gives against the extracted reference's length |
| Coordinator.RunMapping | pipeline.py:387-388 | the six mapping commands, then coverage assessment, run fail-fast |
| Coordinator.RunWithReference | pipeline.py:384-388 | extraction, genotyping, mapping and coverage run fail-fast, as `Run` defines |
| Coordinator.RunAfterChoice | pipeline.py:384-393 | the reference block runs only when found; trimming to remapping follow |
| Coordinator.RunSample | pipeline.py:379-393 | one iteration of the sample loop equals `Run` over the sample's plan |
| Coordinator.ReportPasses | pipeline.py:394 | `report` runs once after the loop and never ends the run |
| Coordinator.RunSchedule | pipeline.py:378-394 | the loop over samples 1..n, then the report, equals `Run` over the whole schedule |
| Coordinator.Pipeline | pipeline.py:366-394 | `main` produces `Spec`: `ERR_READS` when nothing pairs, and otherwise the fail-fast run of the schedule |
| Coordinator.PlanSizes | pipeline.py:281-313 | the normalisation and assembly sweeps are never empty |
| Coordinator.FrontStages | pipeline.py:379-383 | every sample starts with import, count, sample, BLAST and choice, all its own |
| Coordinator.WithReferenceStages | pipeline.py:384-388 | extraction, genotyping, mapping and coverage are scheduled as a block exactly when a reference is found |
| Coordinator.BackSamples | pipeline.py:389-393 | the stages after the reference block belong to the sample itself |
| Coordinator.BackStages | pipeline.py:389-393 | every sample is trimmed, normalised, assembled, evaluated and remapped |
| Coordinator.PlanStages | pipeline.py:379-393 | a sample's plan holds only its own events: the five opening stages, the reference block exactly when a hit row exists, and the five closing stages |
| Coordinator.ScheduleStages | pipeline.py:378-394 | in the whole schedule each sample has exactly those stages, and the last sample also has the report |
| Coordinator.ScheduleOrdered | pipeline.py:378-394 | samples run strictly in sequence: schedule events never go back to an earlier sample |
| Coordinator.LoopOrdered | pipeline.py:378-393 | the loop over samples keeps the events of each sample together and in index order |
| Coordinator.RunExits | pipeline.py:86-334 | an exit comes from the last event attempted, a checked stage with a non-zero status, after every earlier checked stage returned 0; an exception comes from the last event |
| Coordinator.StopsAtFirstFailure | pipeline.py:378-394 | the run attempts a prefix of the schedule in sample order; the first non-zero status of a checked stage ends it with that stage's code, and no later stage or sample runs |
| Coordinator.CompletedStages | pipeline.py:378-394 | in a completed run every sample went through all its stages, the reference block exactly when found |
| Coordinator.AssessCrashes | pipeline.py:222 | coverage assessment of any sample but index 1 raises |
| Coordinator.AssessScheduled | pipeline.py:384-388 | a sample with a hit has a coverage assessment in the schedule |
| Coordinator.LaterReferenceCrashes | pipeline.py:387-388 | if any sample after the first has a hit, the run does not complete |
| Coordinator.EventFails | pipeline.py:378-394 | a schedule containing an event that fails does not complete |
| Coordinator.SampleCountPositive | pipeline.py:56-58 | at least one sample is paired exactly when both directions have a file |
| Coordinator.ReadsExit | pipeline.py:58 | `ERR_READS` is the outcome exactly when there is no forward or no reverse file, and nothing else runs then |
| Coordinator.CheckerNeverReads | pipeline.py:58 | no stage exits with `ERR_READS`; only `list_fastqs` does |
| Coordinator.RunKeepsOut | pipeline.py:378-394 | a run ends only with an outcome that some event ends with |

## Left out

- Command text is not modelled. The shell strings, `os.system`, `envoy.run`, the BLAST command object and `makeblastdb` are represented only by `Tools.status`, one exit status per event. Statuses the code ignores are left out. These are `makeblastdb`, the trimming post-processing at line 276, evaluation and the report copy.
- File and directory I/O is not modelled. The directory listing, the BLAST report, the database, Trimmomatic's standard error and the pileup are given as sequences. Writing files, `os.makedirs` and `time.time` are left out. The run directory is new for every run (it is named after the clock), so the only pileup is the one `map_reads` writes under index 1.
- Omitted command-line options are not modelled. Every option of `main` defaults to `None` (lines 366-368); the model takes each as a given string (`Config`). Python raises instead: `TypeError` at line 372 without `out_dir`, at line 50 without `in_dir` and at lines 52 and 54 without a read signature (once a `.fastq` entry reaches that test); `AttributeError` at lines 281-282 without `norm_k_list` or `norm_c_list`, since `None` has no `split`; and `TypeError` at line 334 without `asm_k_list`, after an assembly has returned 0. `asm_k_list` otherwise appears only in command text, so `Config` has no field for it.
- `int()` parsing of `wc -l` output is a boolean (`Tools.countParses`) plus the number it yields (`Tools.lineCount`). Pileup rows are given already parsed.
- Genotyping.Hundredths: computes `round(count / n_reads * 1e4, 2)` in exact rational arithmetic. Python's binary floating point can round a value near a half differently, and the printed `str(proportion)` is not modelled.
- Hits.ArgMax: Python's `max` returns the first maximal key in dict iteration order, which is unspecified. The model promises only some key of maximal count. The top genotype in `genotype` is left open in the same way.
- Coverage.Judge: `(1 - 0.9) * reference_len` is compared in exact arithmetic (`10 * count < length`). The floating-point value of `1 - 0.9` is slightly below 0.1. The two tests can differ only for reference lengths far beyond any genome, around 10^15.
- `sample_reads` (`n_reads/100`) is modelled only by its exit status. The float sample size is left out.
- `evaluate_assemblies` and `report` contribute only their events: their statuses are ignored by the code. The contents of the QUAST command and the copy into `eval/sumary/` are not modelled.
- The `multiple_samples` choice in `import_reads` only changes the command text, so it is not modelled.
- Progress messages (`print`) are left out, including normalise's message built from the names `k` and `c` that the comprehension leaks in Python 2.
- Step 5 of `map_reads` reads `/map/...` without the output prefix. This is a command-text defect, seen only through its status.
- `threads` and parallelism inside tools are not modelled. Command-line dispatch (`argh`) is not modelled.
- The order in which Python 2 iterates the sample dict is not modelled: samples are numbered 1..n. The order of genotypes in `Genotyping.Records` is left arbitrary, and the report is proved independent of it.
