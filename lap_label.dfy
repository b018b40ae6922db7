/**
 * The text of one lap entry, `"$lap LAP : $sec.$milli"`, and its reading
 * back. The hundredths are printed as a plain `Int`, without zero padding,
 * so five hundredths of a second show as `0.5`.
 */
module LapLabel {
  import opened Wrappers
  import opened Decimal

  /** What one entry records: the lap counter and the displayed seconds and hundredths. */
  datatype Lap = Lap(number: int, sec: int, milli: int)

  const SEPARATOR: string := " LAP : "

  /** The label `recordLapTime` stores: `"$lap LAP : $sec.$milli"`. */
  function Label(l: Lap): string {
    IntToString(l.number) + (SEPARATOR + (IntToString(l.sec) + ("." + IntToString(l.milli))))
  }

  /** Reads `s` as a label: three numbers separated by `SEPARATOR` and `.`, nothing after. */
  function Parse(s: string): Option<Lap> {
    match ParseInt(s)
    case None => None
    case Some((number, afterNumber)) =>
      if |afterNumber| < |SEPARATOR| || afterNumber[..|SEPARATOR|] != SEPARATOR then None
      else
        match ParseInt(afterNumber[|SEPARATOR|..])
        case None => None
        case Some((sec, afterSec)) =>
          if afterSec == [] || afterSec[0] != '.' then None
          else
            match ParseInt(afterSec[1..])
            case None => None
            case Some((milli, rest)) =>
              if rest != [] then None else Some(Lap(number, sec, milli))
  }

  /** `Parse` succeeds on `s` once each of its three reads succeeds in turn. */
  lemma ParseSteps(s: string, number: int, afterNumber: string, sec: int, afterSec: string, milli: int)
    requires ParseInt(s) == Some((number, afterNumber))
    requires |afterNumber| >= |SEPARATOR| && afterNumber[..|SEPARATOR|] == SEPARATOR
    requires ParseInt(afterNumber[|SEPARATOR|..]) == Some((sec, afterSec))
    requires afterSec != [] && afterSec[0] == '.'
    requires ParseInt(afterSec[1..]) == Some((milli, []))
    ensures Parse(s) == Some(Lap(number, sec, milli))
  {
  }

  /** Every label reads back as the entry it was made from. */
  lemma ParseLabel(l: Lap)
    ensures Parse(Label(l)) == Some(l)
  {
    var afterSec := "." + IntToString(l.milli);
    var afterNumber := SEPARATOR + (IntToString(l.sec) + afterSec);
    ReadFront(l.number, afterNumber, Label(l));
    ReadFront(l.sec, afterSec, afterNumber[|SEPARATOR|..]);
    ReadFront(l.milli, [], afterSec[1..]);
    ParseSteps(Label(l), l.number, afterNumber, l.sec, afterSec, l.milli);
  }

  lemma ReadFront(x: int, rest: string, s: string)
    requires rest == [] || !IsDigit(rest[0])
    requires s == IntToString(x) + rest
    ensures ParseInt(s) == Some((x, rest))
  {
    ParseIntRoundTrip(x, rest);
  }

  /** Different entries never share a label. */
  lemma LabelInjective(l1: Lap, l2: Lap)
    ensures Label(l1) == Label(l2) ==> l1 == l2
  {
    ParseLabel(l1);
    ParseLabel(l2);
  }

  /**
   * Sample labels. Hundredths are not padded: five hundredths show as `0.5`,
   * fifty as `0.50`.
   */
  lemma LabelExamples()
    ensures Label(Lap(1, 0, 0)) == "1 LAP : 0.0"
    ensures Label(Lap(1, 0, 5)) == "1 LAP : 0.5"
    ensures Label(Lap(1, 0, 50)) == "1 LAP : 0.50"
  {
  }
}
