/** The option loop of main (maxtime.c:97-107): getopt with the option string "+gkvw".
    The leading '+' stops option parsing at the first argument that is not an option,
    and "--" ends it as well (and is consumed). Each option sets its flag to 1;
    any other option character ends the program with ERR_ARGS. */
module Options {

  /** The opt_g, opt_k, opt_v and opt_w globals. */
  datatype Flags = Flags(g: bool, k: bool, v: bool, w: bool)

  /** How the option loop ends: an invalid option, or the flags and the value of optind. */
  datatype OptResult = BadOption | Parsed(flags: Flags, optind: nat)

  predicate IsFlag(c: char) {
    c == 'g' || c == 'k' || c == 'v' || c == 'w'
  }

  /** getopt reads an argument as a cluster of option characters when it starts with '-',
      has at least one more character and is not "--". */
  predicate IsCluster(arg: string) {
    |arg| >= 2 && arg[0] == '-' && arg != "--"
  }

  /** The index of the first argument at or after i that is not an option cluster:
      where option parsing stops. */
  function ScanEnd(argv: seq<string>, i: nat): (e: nat)
    ensures i <= e
    ensures i <= |argv| ==> e <= |argv|
    ensures forall m | i <= m < e :: m < |argv| && IsCluster(argv[m])
    ensures e < |argv| ==> !IsCluster(argv[e])
    decreases |argv| - i
  {
    if i < |argv| && IsCluster(argv[i]) then ScanEnd(argv, i + 1) else i
  }

  /** Some cluster among argv[1..e] holds a character that is not an option of maxtime. */
  predicate HasBadOption(argv: seq<string>, e: nat) {
    exists i, j | 1 <= i < e && i < |argv| && 1 <= j < |argv[i]| :: !IsFlag(argv[i][j])
  }

  /** Option character c is given in one of the clusters argv[1..e]. */
  predicate Given(argv: seq<string>, e: nat, c: char) {
    exists i, j | 1 <= i < e && i < |argv| && 1 <= j < |argv[i]| :: argv[i][j] == c
  }

  /** The reference definition of the option loop: the result is decided by the clusters
      before the stopping point alone; a flag is set exactly when its letter is given. */
  function Getopt(argv: seq<string>): (r: OptResult)
    ensures r.Parsed? ==> ScanEnd(argv, 1) <= r.optind <= |argv| || (|argv| == 0 && r.optind == 1)
  {
    var e := ScanEnd(argv, 1);
    if HasBadOption(argv, e) then BadOption
    else
      Parsed(Flags(Given(argv, e, 'g'), Given(argv, e, 'k'), Given(argv, e, 'v'), Given(argv, e, 'w')),
             if e < |argv| && argv[e] == "--" then e + 1 else e)
  }

  lemma GivenStep(argv: seq<string>, i: nat, c: char)
    requires 1 <= i < |argv| && IsCluster(argv[i])
    ensures Given(argv, i + 1, c) <==> Given(argv, i, c) || c in argv[i][1..]
  {
    if c in argv[i][1..] {
      var j :| 0 <= j < |argv[i][1..]| && argv[i][1..][j] == c;
      assert argv[i][j + 1] == c;
    }
    if Given(argv, i + 1, c) && !Given(argv, i, c) {
      var i', j :| 1 <= i' < i + 1 && i' < |argv| && 1 <= j < |argv[i']| && argv[i'][j] == c;
      assert argv[i][1..][j - 1] == c;
    }
  }

  /** The option loop as the program runs it: one argument at a time, one character of
      each cluster at a time, leaving at the first invalid option. */
  method GetOpts(argv: seq<string>) returns (r: OptResult)
    ensures r == Getopt(argv)
  {
    var flags := Flags(false, false, false, false);
    var optind := 1;
    while optind < |argv| && IsCluster(argv[optind])
      invariant 1 <= optind <= ScanEnd(argv, 1)
      invariant ScanEnd(argv, optind) == ScanEnd(argv, 1)
      invariant !HasBadOption(argv, optind)
      invariant flags == Flags(Given(argv, optind, 'g'), Given(argv, optind, 'k'),
                               Given(argv, optind, 'v'), Given(argv, optind, 'w'))
      decreases |argv| - optind
    {
      var arg := argv[optind];
      var j := 1;
      while j < |arg|
        invariant 1 <= j <= |arg|
        invariant forall m | 1 <= m < j :: IsFlag(arg[m])
        invariant flags == Flags(Given(argv, optind, 'g') || 'g' in arg[1..j],
                                 Given(argv, optind, 'k') || 'k' in arg[1..j],
                                 Given(argv, optind, 'v') || 'v' in arg[1..j],
                                 Given(argv, optind, 'w') || 'w' in arg[1..j])
      {
        assert arg[1..j + 1] == arg[1..j] + [arg[j]];
        match arg[j] {
          case 'g' => flags := flags.(g := true);
          case 'k' => flags := flags.(k := true);
          case 'v' => flags := flags.(v := true);
          case 'w' => flags := flags.(w := true);
          case _ =>
            assert HasBadOption(argv, ScanEnd(argv, 1)) by {
              assert 1 <= optind < ScanEnd(argv, 1) && !IsFlag(argv[optind][j]);
            }
            return BadOption;
        }
        j := j + 1;
      }
      assert arg[1..] == arg[1..j];
      GivenStep(argv, optind, 'g');
      GivenStep(argv, optind, 'k');
      GivenStep(argv, optind, 'v');
      GivenStep(argv, optind, 'w');
      optind := optind + 1;
    }
    if optind < |argv| && argv[optind] == "--" {
      optind := optind + 1;
    }
    r := Parsed(flags, optind);
  }

  /** The stopping point is determined by the two facts ScanEnd promises. */
  lemma {:induction false} ScanEndIs(argv: seq<string>, i: nat, x: nat)
    requires i <= x <= |argv|
    requires forall m | i <= m < x :: IsCluster(argv[m])
    requires x == |argv| || !IsCluster(argv[x])
    ensures ScanEnd(argv, i) == x
    decreases x - i
  {
    if i < x {
      ScanEndIs(argv, i + 1, x);
    }
  }

  /** Clusters from i up to x keep parsing going at least to x. */
  lemma {:induction false} ScanEndAtLeast(argv: seq<string>, i: nat, x: nat)
    requires i <= x
    requires forall m | i <= m < x :: m < |argv| && IsCluster(argv[m])
    ensures x <= ScanEnd(argv, i)
    decreases x - i
  {
    if i < x {
      assert i < |argv| && IsCluster(argv[i]);
      assert ScanEnd(argv, i) == ScanEnd(argv, i + 1);
      ScanEndAtLeast(argv, i + 1, x);
    }
  }

  /** Parsing stops at the first operand: whatever follows it, including arguments of the
      command that look like options of maxtime, leaves the result unchanged. */
  lemma StopsAtFirstOperand(argv: seq<string>, rest: seq<string>)
    requires ScanEnd(argv, 1) < |argv|
    ensures Getopt(argv + rest) == Getopt(argv)
  {
    var e := ScanEnd(argv, 1);
    var argv' := argv + rest;
    assert forall m | 0 <= m < |argv| :: argv'[m] == argv[m];
    ScanEndIs(argv', 1, e);
    assert HasBadOption(argv', e) == HasBadOption(argv, e);
    assert forall c :: Given(argv', e, c) == Given(argv, e, c);
  }

  /** argv with argument i given twice in a row. */
  function Repeat(argv: seq<string>, i: nat): (r: seq<string>)
    requires i < |argv|
    ensures |r| == |argv| + 1
    ensures forall m | 0 <= m <= i :: r[m] == argv[m]
    ensures forall m | i < m < |r| :: r[m] == argv[m - 1]
  {
    argv[..i + 1] + argv[i..]
  }

  lemma RepeatGiven(argv: seq<string>, i: nat, e: nat, c: char)
    requires 1 <= i < e <= |argv|
    ensures Given(Repeat(argv, i), e + 1, c) == Given(argv, e, c)
  {
    var argv' := Repeat(argv, i);
    if Given(argv', e + 1, c) {
      var i', j :| 1 <= i' < e + 1 && i' < |argv'| && 1 <= j < |argv'[i']| && argv'[i'][j] == c;
      var k := if i' > i then i' - 1 else i';
      assert argv'[i'] == argv[k];
      assert 1 <= k < e && k < |argv| && 1 <= j < |argv[k]| && argv[k][j] == c;
    }
    if Given(argv, e, c) {
      var i', j :| 1 <= i' < e && i' < |argv| && 1 <= j < |argv[i']| && argv[i'][j] == c;
      var k := if i' > i then i' + 1 else i';
      assert argv'[k] == argv[i'];
      assert 1 <= k < e + 1 && k < |argv'| && 1 <= j < |argv'[k]| && argv'[k][j] == c;
      assert Given(argv', e + 1, c);
    }
  }

  lemma RepeatBadOption(argv: seq<string>, i: nat, e: nat)
    requires 1 <= i < e <= |argv|
    ensures HasBadOption(Repeat(argv, i), e + 1) == HasBadOption(argv, e)
  {
    var argv' := Repeat(argv, i);
    if HasBadOption(argv', e + 1) {
      var i', j :| 1 <= i' < e + 1 && i' < |argv'| && 1 <= j < |argv'[i']| && !IsFlag(argv'[i'][j]);
      var k := if i' > i then i' - 1 else i';
      assert argv'[i'] == argv[k];
      assert 1 <= k < e && k < |argv| && 1 <= j < |argv[k]| && !IsFlag(argv[k][j]);
    }
    if HasBadOption(argv, e) {
      var i', j :| 1 <= i' < e && i' < |argv| && 1 <= j < |argv[i']| && !IsFlag(argv[i'][j]);
      var k := if i' > i then i' + 1 else i';
      assert argv'[k] == argv[i'];
      assert 1 <= k < e + 1 && k < |argv'| && 1 <= j < |argv'[k]| && !IsFlag(argv'[k][j]);
      assert HasBadOption(argv', e + 1);
    }
  }

  /** Giving an option cluster twice in a row is the same as giving it once: the flags are
      only ever set, so a repeated option changes nothing but the position of the operands. */
  lemma RepeatedClusterIsIdempotent(argv: seq<string>, i: nat)
    requires 1 <= i < ScanEnd(argv, 1)
    ensures match Getopt(argv)
            case BadOption => Getopt(Repeat(argv, i)) == BadOption
            case Parsed(flags, optind) => Getopt(Repeat(argv, i)) == Parsed(flags, optind + 1)
  {
    var e := ScanEnd(argv, 1);
    var argv' := Repeat(argv, i);
    forall m | 1 <= m < e + 1 ensures IsCluster(argv'[m]) {
      if m > i { assert argv'[m] == argv[m - 1]; }
    }
    if e < |argv| {
      assert argv'[e + 1] == argv[e];
    }
    ScanEndIs(argv', 1, e + 1);
    RepeatBadOption(argv, i, e);
    RepeatGiven(argv, i, e, 'g');
    RepeatGiven(argv, i, e, 'k');
    RepeatGiven(argv, i, e, 'v');
    RepeatGiven(argv, i, e, 'w');
  }
}
