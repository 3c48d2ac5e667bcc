/** What an exit code is called in a summary (`logger.rs`). */
module ExitReason {
  import opened Text

  /** `{code}` of a signed number. */
  function Decimal(code: int): string {
    if code < 0 then "-" + Digits(-code) else Digits(code)
  }

  /** `describe_exit_code`. */
  function DescribeExitCode(code: int): string {
    if code == 0 then "completed"
    else if code == 130 then "terminated: SIGINT"
    else if code == 137 then "killed: SIGKILL" + " (out of memory, or walltime hard limit)"
    else if code == 143 then "terminated: SIGTERM" + " (walltime exceeded, or qdel)"
    else if code > 128 then "terminated by signal " + Decimal(code - 128)
    else "failed with exit status " + Decimal(code)
  }

  lemma MinusMeansNegative(code: int)
    ensures Decimal(code) != "" && (Decimal(code)[0] == '-' <==> code < 0)
  {
  }

  lemma DecimalIsInjective(a: int, b: int)
    requires Decimal(a) == Decimal(b)
    ensures a == b
  {
    MinusMeansNegative(a);
    MinusMeansNegative(b);
    if a < 0 {
      assert Decimal(a)[1..] == Digits(-a) && Decimal(b)[1..] == Digits(-b);
      ValueOfDigits(-a);
      ValueOfDigits(-b);
    } else {
      ValueOfDigits(a);
      ValueOfDigits(b);
    }
  }

  // Where the texts of the table differ: in the first letter, and those of signals again in letters 10 and 15.

  lemma UnsignalledTexts()
    ensures DescribeExitCode(0)[0] == 'c' && DescribeExitCode(137)[0] == 'k'
  {
    var completed, killed := DescribeExitCode(0), DescribeExitCode(137);
    assert completed[0] == 'c';
    assert killed[0] == 'k';
  }

  lemma SignalledTexts()
    ensures var sigint, sigterm := DescribeExitCode(130), DescribeExitCode(143);
            && |sigint| > 15 && sigint[0] == 't' && sigint[10] == ':' && sigint[15] == 'I'
            && |sigterm| > 15 && sigterm[0] == 't' && sigterm[10] == ':' && sigterm[15] == 'T'
  {
  }

  lemma NumberedTexts(code: int)
    requires code != 0 && code != 130 && code != 137 && code != 143
    ensures code > 128 ==>
              && DescribeExitCode(code)[0] == 't' && |DescribeExitCode(code)| > 10 && DescribeExitCode(code)[10] == ' '
              && DescribeExitCode(code)[|"terminated by signal "|..] == Decimal(code - 128)
    ensures code <= 128 ==>
              && DescribeExitCode(code)[0] == 'f'
              && DescribeExitCode(code)[|"failed with exit status "|..] == Decimal(code)
  {
  }

  /** Every reason given for a code begins otherwise than the placeholder "unknown". */
  lemma ReasonIsNotUnknown(code: int)
    ensures var reason := DescribeExitCode(code);
            reason != "" && reason[0] != 'u' && reason != "unknown"
  {
    UnsignalledTexts();
    SignalledTexts();
    if code != 0 && code != 130 && code != 137 && code != 143 {
      NumberedTexts(code);
    }
  }

  /** The text loses nothing: different exit codes are described differently. */
  lemma ReasonTellsTheCode(a: int, b: int)
    ensures DescribeExitCode(a) == DescribeExitCode(b) <==> a == b
  {
    if DescribeExitCode(a) == DescribeExitCode(b) {
      UnsignalledTexts();
      SignalledTexts();
      if a != 0 && a != 130 && a != 137 && a != 143 {
        NumberedTexts(a);
      }
      if b != 0 && b != 130 && b != 137 && b != 143 {
        NumberedTexts(b);
      }
      if a > 128 && a != 130 && a != 137 && a != 143 {
        DecimalIsInjective(a - 128, b - 128);
      } else if a <= 128 && a != 0 {
        DecimalIsInjective(a, b);
      }
    }
  }
}
