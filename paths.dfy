/** The string derivations of the classifier's entry points: the milestone
    checkpoint name `'{}_{}.pkl'.format(path.split('.')[0], epoch)`, Python's
    `str` on a non-negative integer, and `os.path.join` on POSIX paths. */
module Paths {

  /** `s.split('.')[0]`: the part of `s` before its first '.', or all of `s`
      when it has no '.'. */
  function BeforeFirstDot(s: string): (r: string)
    ensures r <= s
    ensures '.' !in r
    ensures r == s || s[|r|] == '.'
  {
    if s == [] || s[0] == '.' then [] else [s[0]] + BeforeFirstDot(s[1..])
  }

  predicate IsDigit(c: char) {
    '0' <= c <= '9'
  }

  predicate AllDigits(s: string) {
    forall i :: 0 <= i < |s| ==> IsDigit(s[i])
  }

  function DigitChar(d: nat): (c: char)
    requires d < 10
    ensures IsDigit(c)
  {
    ('0' as int + d) as char
  }

  function DigitValue(c: char): (d: nat)
    requires IsDigit(c)
    ensures d < 10
  {
    (c as int - '0' as int) as nat
  }

  /** Python's `str(n)` for a non-negative integer: its decimal digits, most
      significant first, with no leading zero. */
  function Decimal(n: nat): (r: string)
    ensures r != []
    ensures AllDigits(r)
    ensures r[0] == '0' <==> n == 0
    decreases n
  {
    if n < 10 then [DigitChar(n)] else Decimal(n / 10) + [DigitChar(n % 10)]
  }

  /** The value of a string of decimal digits (`int(s)` on digits only). */
  function ParseDecimal(s: string): nat
    requires AllDigits(s)
  {
    if s == [] then 0 else ParseDecimal(s[..|s| - 1]) * 10 + DigitValue(s[|s| - 1])
  }

  /** `int(str(n)) == n`. */
  lemma {:induction false} ParseDecimalOfDecimal(n: nat)
    ensures ParseDecimal(Decimal(n)) == n
    decreases n
  {
    var r := Decimal(n);
    if n < 10 {
      assert r[..0] == [];
    } else {
      ParseDecimalOfDecimal(n / 10);
      assert r[..|r| - 1] == Decimal(n / 10);
    }
  }

  /** Distinct epochs are written in distinct ways. */
  lemma DecimalInjective(a: nat, b: nat)
    requires Decimal(a) == Decimal(b)
    ensures a == b
  {
    ParseDecimalOfDecimal(a);
    ParseDecimalOfDecimal(b);
  }

  /** The file a milestone checkpoint of `epoch` goes to, for the weights path
      `weightsPath`: the path up to its first '.', then '_', the epoch, and
      ".pkl" whatever extension the weights path had. */
  function MilestoneName(weightsPath: string, epoch: nat): string
  {
    BeforeFirstDot(weightsPath) + "_" + Decimal(epoch) + ".pkl"
  }

  /** What the milestone name is made of: the weights path is cut at its first
      '.', not at its extension, the epoch is written in decimal, and the suffix
      is always ".pkl". */
  lemma MilestoneNameParts(weightsPath: string, epoch: nat)
    ensures var r := MilestoneName(weightsPath, epoch);
            var stem := BeforeFirstDot(weightsPath);
            && |r| == |stem| + |Decimal(epoch)| + 5
            && r[..|stem|] == stem && '.' !in stem
            && r[|stem|] == '_'
            && r[|stem| + 1..|r| - 4] == Decimal(epoch)
            && r[|r| - 4..] == ".pkl"
  {
  }

  /** Milestones of different epochs never share a file, so a later milestone
      cannot overwrite an earlier one. */
  lemma MilestoneNameInjective(weightsPath: string, e1: nat, e2: nat)
    requires MilestoneName(weightsPath, e1) == MilestoneName(weightsPath, e2)
    ensures e1 == e2
  {
    var r1, r2 := MilestoneName(weightsPath, e1), MilestoneName(weightsPath, e2);
    var k := |BeforeFirstDot(weightsPath)|;
    MilestoneNameParts(weightsPath, e1);
    MilestoneNameParts(weightsPath, e2);
    assert Decimal(e1) == r1[k + 1..|r1| - 4] == r2[k + 1..|r2| - 4] == Decimal(e2);
    DecimalInjective(e1, e2);
  }

  /** A milestone never lands on the weights path itself, so the per-epoch
      overwrite of the latest checkpoint never clobbers a milestone. */
  lemma MilestoneNameIsNotWeightsPath(weightsPath: string, epoch: nat)
    ensures MilestoneName(weightsPath, epoch) != weightsPath
  {
    var stem := BeforeFirstDot(weightsPath);
    var r := MilestoneName(weightsPath, epoch);
    MilestoneNameParts(weightsPath, epoch);
    if stem != weightsPath {
      assert weightsPath[|stem|] == '.' != '_' == r[|stem|];
    } else {
      assert |r| > |weightsPath|;
    }
  }

  /** A weights path whose first '.' follows `stem` gives the milestone
      `stem_<epoch>.pkl`, whatever comes after that '.'. */
  lemma MilestoneNameOfDottedPath(stem: string, rest: string, epoch: nat)
    requires '.' !in stem
    ensures MilestoneName(stem + "." + rest, epoch) == stem + "_" + Decimal(epoch) + ".pkl"
  {
    BeforeFirstDotStops(stem, rest);
  }

  /** The milestone of the default weights path (`'weights/{}.pkl'` filled
      with the run name `sleeve_clf_Adam`) at epoch 25, the epoch that is
      evaluated and used for inference. */
  lemma MilestoneNameOfDefaultPath(path: string, epoch: nat)
    requires path == "weights/sleeve_clf_Adam.pkl" && epoch == 25
    ensures MilestoneName(path, epoch) == "weights/sleeve_clf_Adam_25.pkl"
  {
    var stem := "weights/sleeve_clf_Adam";
    assert Decimal(25) == "25" by {
      assert Decimal(25) == Decimal(2) + [DigitChar(5)];
    }
    assert path == stem + "." + "pkl";
    MilestoneNameOfDottedPath(stem, "pkl", epoch);
  }

  /** The cut is at the first '.', not at the extension: a '.' in a directory
      name drops the rest of the path, and the suffix is ".pkl" whatever the
      original extension was. */
  lemma MilestoneNameCutsAtFirstDot(path: string, epoch: nat)
    requires path == "runs.v2/clf.pth" && epoch == 10
    ensures MilestoneName(path, epoch) == "runs_10.pkl"
  {
    assert Decimal(10) == "10" by {
      assert Decimal(10) == Decimal(1) + [DigitChar(0)];
    }
    assert path == "runs" + "." + "v2/clf.pth";
    MilestoneNameOfDottedPath("runs", "v2/clf.pth", epoch);
  }

  /** `(a + "." + b).split('.')[0] == a` when `a` has no '.'. */
  lemma {:induction false} BeforeFirstDotStops(a: string, b: string)
    requires '.' !in a
    ensures BeforeFirstDot(a + "." + b) == a
  {
    if a != [] {
      assert (a + "." + b)[1..] == a[1..] + "." + b;
      BeforeFirstDotStops(a[1..], b);
    }
  }

  /** `os.path.join(a, b)` on POSIX: an absolute `b` replaces `a`; otherwise `b`
      is appended, with a '/' in between unless `a` is empty or already ends
      in one. */
  function Join(a: string, b: string): string
  {
    if b != [] && b[0] == '/' then b
    else if a == [] || a[|a| - 1] == '/' then a + b
    else a + "/" + b
  }

  /** The joined path ends in `b`, and starts with `a` unless `b` is
      absolute. */
  lemma JoinEndsInName(a: string, b: string)
    ensures var r := Join(a, b);
            && |b| <= |r| && r[|r| - |b|..] == b
            && ((b != [] && b[0] == '/') || a <= r)
  {
  }

  /** A relative name joined onto a non-empty directory lands strictly inside
      that directory: the directory, then the name, with a '/' just before
      the name (added only when the directory does not already end in one). */
  lemma JoinRelativeIsInside(dir: string, name: string)
    requires dir != [] && name != [] && name[0] != '/'
    ensures var r := Join(dir, name);
            && dir <= r
            && r[|r| - |name|..] == name
            && r[|r| - |name| - 1] == '/'
  {
  }
}
