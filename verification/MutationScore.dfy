/**
 The mutation-score gate (src/audit/audit-mutation-score.ts), in exact arithmetic.
 */
module MutationScore {
  datatype Mutant = Killed | Survived | NoCoverage | Ignored | Timeout | RuntimeError

  datatype ReportFile = ReportFile(path: string, mutants: seq<Mutant>)

  datatype Counts = Counts(killed: nat, survived: nat, noCoverage: nat)

  datatype FileScore = FileScore(path: string, counts: Counts, score: real)

  datatype Summary = Summary(coveredScore: real, rawScore: real, totals: Counts, perFile: seq<FileScore>)

  datatype Options = Options(minCovered: real, minRaw: real, minFile: real, minMutantsForFileGate: int)

  datatype Violation =
    | BelowFileGate(path: string)
    | BelowCovered
    | BelowRaw
    | Uncovered(mutants: nat)

  function Pct(num: nat, denom: nat): real
  {
    if denom == 0 then 100.0 else num as real / denom as real * 100.0
  }

  function Covered(c: Counts): nat
  {
    c.killed + c.survived
  }

  function All(c: Counts): nat
  {
    c.killed + c.survived + c.noCoverage
  }

  function Raw(c: Counts): real
  {
    Pct(c.killed, All(c))
  }

  /** How many mutants of a list satisfy `p`. */
  function Count(mutants: seq<Mutant>, p: Mutant -> bool): nat
  {
    if mutants == [] then 0
    else Count(mutants[..|mutants| - 1], p) + if p(mutants[|mutants| - 1]) then 1 else 0
  }

  predicate IsKilled(m: Mutant) { m.Killed? || m.Timeout? }
  predicate IsSurvived(m: Mutant) { m.Survived? }
  predicate IsUncovered(m: Mutant) { m.NoCoverage? }

  function CountsOf(mutants: seq<Mutant>): Counts
  {
    Counts(Count(mutants, IsKilled), Count(mutants, IsSurvived), Count(mutants, IsUncovered))
  }

  function Plus(a: Counts, b: Counts): Counts
  {
    Counts(a.killed + b.killed, a.survived + b.survived, a.noCoverage + b.noCoverage)
  }

  function Totals(files: seq<ReportFile>): Counts
  {
    if files == [] then Counts(0, 0, 0)
    else Plus(Totals(files[..|files| - 1]), CountsOf(files[|files| - 1].mutants))
  }

  function Scored(f: ReportFile): FileScore
  {
    FileScore(f.path, CountsOf(f.mutants), Raw(CountsOf(f.mutants)))
  }

  function Scores(files: seq<ReportFile>): (r: seq<FileScore>)
    ensures |r| == |files| && forall i :: 0 <= i < |files| ==> r[i] == Scored(files[i])
  {
    seq(|files|, i requires 0 <= i < |files| => Scored(files[i]))
  }

  function Summarize(files: seq<ReportFile>): Summary
  {
    var t := Totals(files);
    Summary(Pct(t.killed, Covered(t)), Raw(t), t, Scores(files))
  }

  method CountMutants(mutants: seq<Mutant>) returns (c: Counts)
    ensures c == CountsOf(mutants)
  {
    var killed, survived, noCoverage := 0, 0, 0;
    for j := 0 to |mutants|
      invariant Counts(killed, survived, noCoverage) == CountsOf(mutants[..j])
    {
      assert mutants[..j + 1][..j] == mutants[..j];
      if mutants[j].Killed? || mutants[j].Timeout? { killed := killed + 1; }
      else if mutants[j].Survived? { survived := survived + 1; }
      else if mutants[j].NoCoverage? { noCoverage := noCoverage + 1; }
    }
    assert mutants[..|mutants|] == mutants;
    c := Counts(killed, survived, noCoverage);
  }

  method ComputeMutationScores(files: seq<ReportFile>) returns (summary: Summary)
    ensures summary == Summarize(files)
  {
    hide CountsOf, Pct;
    var totals := Counts(0, 0, 0);
    var perFile: seq<FileScore> := [];
    for i := 0 to |files|
      invariant totals == Totals(files[..i])
      invariant |perFile| == i && forall j :: 0 <= j < i ==> perFile[j] == Scored(files[j])
    {
      var c := CountMutants(files[i].mutants);
      assert files[..i + 1][..i] == files[..i];
      totals := Counts(totals.killed + c.killed, totals.survived + c.survived, totals.noCoverage + c.noCoverage);
      perFile := perFile + [FileScore(files[i].path, c, Pct(c.killed, c.killed + c.survived + c.noCoverage))];
    }
    assert files[..|files|] == files;
    assert perFile == Scores(files);
    summary := Summary(Pct(totals.killed, totals.killed + totals.survived),
                       Pct(totals.killed, totals.killed + totals.survived + totals.noCoverage), totals, perFile);
  }

  predicate FailsFileGate(f: FileScore, o: Options)
  {
    All(f.counts) >= o.minMutantsForFileGate && f.score < o.minFile
  }

  function FileViolations(perFile: seq<FileScore>, o: Options): seq<Violation>
  {
    if perFile == [] then []
    else
      FileViolations(perFile[..|perFile| - 1], o)
      + if FailsFileGate(perFile[|perFile| - 1], o) then [BelowFileGate(perFile[|perFile| - 1].path)] else []
  }

  predicate Gates(s: Summary, o: Options)
  {
    s.coveredScore >= o.minCovered && s.rawScore >= o.minRaw && forall f | f in s.perFile :: !FailsFileGate(f, o)
  }

  function GateViolations(s: Summary, o: Options): seq<Violation>
  {
    FileViolations(s.perFile, o)
    + (if s.coveredScore < o.minCovered then [BelowCovered] else [])
    + (if s.rawScore < o.minRaw then [BelowRaw] else [])
  }

  function Notices(s: Summary): seq<Violation>
  {
    if s.totals.noCoverage > 0 then [Uncovered(s.totals.noCoverage)] else []
  }

  method AuditMutationScore(files: seq<ReportFile>, o: Options) returns (ok: bool, violations: seq<Violation>)
    ensures ok == Gates(Summarize(files), o)
    ensures violations == GateViolations(Summarize(files), o) + Notices(Summarize(files))
    ensures ok <==> violations == Notices(Summarize(files))
  {
    hide Summarize;
    var s := ComputeMutationScores(files);
    violations := [];
    var hasFileViolations := false;
    for i := 0 to |s.perFile|
      invariant violations == FileViolations(s.perFile[..i], o)
      invariant hasFileViolations <==> exists f | f in s.perFile[..i] :: FailsFileGate(f, o)
    {
      var f := s.perFile[i];
      assert s.perFile[..i + 1][..i] == s.perFile[..i] && s.perFile[..i + 1] == s.perFile[..i] + [f];
      if All(f.counts) >= o.minMutantsForFileGate && f.score < o.minFile {
        violations := violations + [BelowFileGate(f.path)];
        hasFileViolations := true;
      }
    }
    assert s.perFile[..|s.perFile|] == s.perFile;
    if s.coveredScore < o.minCovered { violations := violations + [BelowCovered]; }
    if s.rawScore < o.minRaw { violations := violations + [BelowRaw]; }
    if s.totals.noCoverage > 0 { violations := violations + [Uncovered(s.totals.noCoverage)]; }
    ok := s.coveredScore >= o.minCovered && s.rawScore >= o.minRaw && !hasFileViolations;
    GatesDecide(s, o);
  }

  lemma {:induction false} FilesDecide(perFile: seq<FileScore>, o: Options)
    ensures FileViolations(perFile, o) == [] <==> forall f | f in perFile :: !FailsFileGate(f, o)
  {
    if perFile != [] {
      var n := |perFile| - 1;
      FilesDecide(perFile[..n], o);
      assert perFile == perFile[..n] + [perFile[n]];
    }
  }

  /** A verdict and its violations agree: the gates hold exactly when no gate is reported. */
  lemma GatesDecide(s: Summary, o: Options)
    ensures Gates(s, o) <==> GateViolations(s, o) == []
    ensures Gates(s, o) <==> GateViolations(s, o) + Notices(s) == Notices(s)
  {
    FilesDecide(s.perFile, o);
    assert |GateViolations(s, o) + Notices(s)| == |GateViolations(s, o)| + |Notices(s)|;
  }

  // ---------------------------------------------------------------------
  // How the scores relate
  // ---------------------------------------------------------------------

  /** `a / b <= c / d`, by cross-multiplication. */
  predicate AtMost(a: nat, b: nat, c: nat, d: nat)
  {
    a * d <= c * b
  }

  lemma PctOrder(a: nat, b: nat, c: nat, d: nat)
    requires b > 0 && d > 0
    ensures Pct(a, b) <= Pct(c, d) <==> AtMost(a, b, c, d)
  {
    var x, y := a as real / b as real, c as real / d as real;
    var p, q := b as real, d as real;
    assert x * p == a as real && y * q == c as real;
    assert (a * d) as real == x * p * q && (c * b) as real == y * q * p;
    Scale(x, y, p * q);
  }

  lemma Scale(x: real, y: real, z: real)
    requires z > 0.0
    ensures x <= y <==> x * z <= y * z
  {
  }

  lemma PctAtMostHundred(num: nat, denom: nat)
    requires num <= denom
    ensures 0.0 <= Pct(num, denom) <= 100.0
  {
    if denom > 0 {
      assert Pct(denom, denom) == 100.0;
      PctOrder(num, denom, denom, denom);
      assert num * denom <= denom * denom;
    }
  }

  /** The raw score never exceeds the covered score. */
  lemma RawAtMostCovered(files: seq<ReportFile>)
    ensures Summarize(files).rawScore <= Summarize(files).coveredScore
  {
    var t := Totals(files);
    PctAtMostHundred(t.killed, All(t));
    if Covered(t) > 0 {
      PctOrder(t.killed, All(t), t.killed, Covered(t));
      assert t.killed * Covered(t) <= t.killed * All(t);
    }
  }

  /** The score of two groups together lies between the score of either. */
  lemma MediantBetween(a: Counts, b: Counts, low: real, high: real)
    requires low <= Raw(a) <= high && low <= Raw(b) <= high
    ensures low <= Raw(Plus(a, b)) <= high
  {
    hide *;
    PlusFacts(a, b);
    if All(a) > 0 && All(b) > 0 {
      if Raw(a) <= Raw(b) { Mediant(a, b); } else { Mediant(b, a); }
    }
  }

  lemma PlusFacts(a: Counts, b: Counts)
    ensures Plus(a, b) == Plus(b, a) && (All(a) == 0 ==> Plus(a, b) == b) && (All(b) == 0 ==> Plus(a, b) == a)
  {
  }

  lemma Mediant(a: Counts, b: Counts)
    requires All(a) > 0 && All(b) > 0 && Raw(a) <= Raw(b)
    ensures Raw(a) <= Raw(Plus(a, b)) <= Raw(b)
  {
    var s := Plus(a, b);
    PctOrder(a.killed, All(a), b.killed, All(b));
    Distribute(a.killed, All(a), b.killed, All(b));
    PctOrder(a.killed, All(a), s.killed, All(s));
    PctOrder(s.killed, All(s), b.killed, All(b));
  }

  lemma Distribute(a: nat, b: nat, c: nat, d: nat)
    requires a * d <= c * b
    ensures a * (b + d) <= (a + c) * b && (a + c) * d <= c * (b + d)
  {
  }

  /** With at least one file, the raw score lies between any bounds on the files' own scores. */
  lemma {:induction false} RawBetweenFiles(files: seq<ReportFile>, low: real, high: real)
    requires files != [] && forall f | f in Scores(files) :: low <= f.score <= high
    ensures low <= Summarize(files).rawScore <= high
  {
    hide Pct, Raw, CountsOf;
    var n := |files| - 1;
    var last := CountsOf(files[n].mutants);
    assert Scores(files)[n] in Scores(files);
    if n == 0 {
      assert files[..0] == [];
      assert Totals(files) == last;
    } else {
      forall f | f in Scores(files[..n]) ensures f in Scores(files) {
        var i :| 0 <= i < n && Scores(files[..n])[i] == f;
        assert Scores(files)[i] == f;
      }
      RawBetweenFiles(files[..n], low, high);
      MediantBetween(Totals(files[..n]), last, low, high);
    }
  }
}
