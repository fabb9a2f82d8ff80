/**
 * The pure part of `Warden::Penalty`: which action applies (the failed
 * check's own, or the configured default when no check is known, as on a
 * checksum failure), the string it reports, and the reason given to the ban.
 */
module WardenPenalty {
  import opened Bytes
  import opened Wrappers

  /** The `WardenActions` enum of WardenCheckMgr.h. */
  const ACTION_LOG: int := 0
  const ACTION_KICK: int := 1
  const ACTION_BAN: int := 2

  /** A check definition as the penalty sees it: its id, comment and configured action. */
  datatype WardenCheck = WardenCheck(checkId: uint32, comment: string, action: int)

  /** The check's own action when a check is given, else the configured default. */
  function ResolveAction(check: Option<WardenCheck>, failAction: uint32): (action: int)
    ensures check.Some? ==> action == check.value.action
    ensures check.None? ==> action == failAction
  {
    match check
    case Some(c) => c.action
    case None => failAction
  }

  /** The string `Penalty` returns for an action. */
  function ActionName(action: int): (name: string)
    ensures name == "None" <==> action == ACTION_LOG
    ensures name == "Kick" <==> action == ACTION_KICK
    ensures name == "Ban" <==> action == ACTION_BAN
    ensures name == "Undefined" <==> action !in {ACTION_LOG, ACTION_KICK, ACTION_BAN}
  {
    if action == ACTION_LOG then "None"
    else if action == ACTION_KICK then "Kick"
    else if action == ACTION_BAN then "Ban"
    else "Undefined"
  }

  const BAN_REASON_BASE: string := "Warden Anticheat Violation"

  /**
   * The ban reason: the base text, followed (only when a check is known) by
   * ": <comment> (CheckId: <id>". The source's format string has no closing
   * parenthesis, and neither has the model.
   */
  function BanReason(check: Option<WardenCheck>): (r: string)
    ensures BAN_REASON_BASE <= r
    ensures r == BAN_REASON_BASE <==> check.None?
    ensures check.Some? ==>
      var id := NatToDecimal(check.value.checkId);
      && |BAN_REASON_BASE| + 2 + |id| < |r|
      && r[|BAN_REASON_BASE|..|BAN_REASON_BASE| + 2] == ": "
      && r[|r| - |id|..] == id
  {
    match check
    case None => BAN_REASON_BASE
    case Some(c) => BAN_REASON_BASE + ": " + c.comment + " (CheckId: " + NatToDecimal(c.checkId)
  }

  /** The reason without a check is a proper prefix of every reason with one. */
  lemma BanReasonExtendsBase(c: WardenCheck)
    ensures BanReason(None) < BanReason(Some(c))
  {
    var r := BanReason(Some(c));
    assert r == BAN_REASON_BASE + (": " + c.comment + " (CheckId: " + NatToDecimal(c.checkId));
  }

  /** Two checks with the same comment get the same ban reason only if they have the same id. */
  lemma BanReasonIdentifiesCheck(c1: WardenCheck, c2: WardenCheck)
    requires c1.comment == c2.comment
    requires BanReason(Some(c1)) == BanReason(Some(c2))
    ensures c1.checkId == c2.checkId
  {
    var prefix := BAN_REASON_BASE + ": " + c1.comment + " (CheckId: ";
    var d1, d2 := NatToDecimal(c1.checkId), NatToDecimal(c2.checkId);
    assert BanReason(Some(c1)) == prefix + d1;
    assert BanReason(Some(c2)) == prefix + d2;
    assert d1 == (prefix + d1)[|prefix|..];
    assert d2 == (prefix + d2)[|prefix|..];
    DecimalRoundTrip(c1.checkId);
    DecimalRoundTrip(c2.checkId);
  }

  /** `%u`: the decimal digits of n, most significant first. */
  function NatToDecimal(n: nat): (s: string)
    ensures |s| >= 1 && AllDigits(s)
    decreases n
  {
    if n < 10 then [DigitChar(n)] else NatToDecimal(n / 10) + [DigitChar(n % 10)]
  }

  function DigitChar(d: nat): (c: char)
    requires d < 10
    ensures '0' <= c <= '9' && c as int - '0' as int == d
  {
    ('0' as int + d) as char
  }

  predicate AllDigits(s: string)
  {
    forall i :: 0 <= i < |s| ==> '0' <= s[i] <= '9'
  }

  /** The number a string of decimal digits denotes. */
  function DecimalValue(s: string): nat
    requires AllDigits(s)
  {
    if s == [] then 0 else 10 * DecimalValue(s[..|s| - 1]) + (s[|s| - 1] as int - '0' as int)
  }

  /** Reading the printed digits back gives the number. */
  lemma {:induction false} DecimalRoundTrip(n: nat)
    ensures DecimalValue(NatToDecimal(n)) == n
    decreases n
  {
    var s := NatToDecimal(n);
    if n >= 10 {
      DecimalRoundTrip(n / 10);
      assert s[..|s| - 1] == NatToDecimal(n / 10);
    }
  }

  /** `%d` applied to a `uint32`: the value is read as a signed 32-bit integer. */
  function SignedDecimal(v: uint32): (s: string)
    ensures v < 0x8000_0000 ==> s == NatToDecimal(v)
    ensures v >= 0x8000_0000 ==> s == "-" + NatToDecimal(0x1_0000_0000 - v)
  {
    var x: int := ToInt32(v);
    if x < 0 then "-" + NatToDecimal(-x) else NatToDecimal(x)
  }

  /** The ban duration string "%ds" built from the configured number of seconds. */
  function BanDuration(seconds: uint32): (s: string)
    ensures |s| >= 2 && s[|s| - 1] == 's'
    ensures seconds < 0x8000_0000 ==> s == NatToDecimal(seconds) + "s"
    ensures seconds >= 0x8000_0000 ==> s == "-" + NatToDecimal(0x1_0000_0000 - seconds) + "s"
  {
    SignedDecimal(seconds) + "s"
  }
}
