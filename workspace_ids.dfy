/** Workspace instance identifiers: "scrubber-workspace-" followed by the
    local time formatted with %Y%m%d%H%M%S. */
module WorkspaceIds {

  /** A datetime.now() reading, to the second. */
  datatype Timestamp = Timestamp(year: int, month: int, day: int, hour: int, minute: int, second: int)

  predicate ValidTimestamp(t: Timestamp) {
    1000 <= t.year <= 9999 && 1 <= t.month <= 12 && 1 <= t.day <= 31 &&
    0 <= t.hour < 24 && 0 <= t.minute < 60 && 0 <= t.second < 60
  }

  const Prefix := "scrubber-workspace-"

  function Pow10(w: nat): (p: nat)
    ensures p > 0
  {
    if w == 0 then 1 else 10 * Pow10(w - 1)
  }

  predicate IsDigit(c: char) {
    '0' <= c <= '9'
  }

  function DigitChar(d: int): char
    requires 0 <= d < 10
  {
    ('0' as int + d) as char
  }

  /** `n` in decimal, zero-padded to exactly `w` digits (strftime's %m, %Y...). */
  function Padded(n: nat, w: nat): (s: string)
    requires n < Pow10(w)
    ensures |s| == w && forall i :: 0 <= i < w ==> IsDigit(s[i])
  {
    if w == 0 then "" else Padded(n / 10, w - 1) + [DigitChar(n % 10)]
  }

  /** The decimal number a string of digits spells. */
  function DigitsValue(s: string): nat
    requires forall i :: 0 <= i < |s| ==> IsDigit(s[i])
  {
    if |s| == 0 then 0
    else
      assert IsDigit(s[|s| - 1]);
      10 * DigitsValue(s[..|s| - 1]) + (s[|s| - 1] as int - '0' as int)
  }

  lemma {:induction false} PaddedValue(n: nat, w: nat)
    requires n < Pow10(w)
    ensures DigitsValue(Padded(n, w)) == n
  {
    if w > 0 {
      PaddedValue(n / 10, w - 1);
      var s := Padded(n, w);
      assert s[..|s| - 1] == Padded(n / 10, w - 1);
    }
  }

  /** The %Y%m%d%H%M%S rendering of a timestamp. */
  function Stamp(t: Timestamp): (s: string)
    requires ValidTimestamp(t)
    ensures |s| == 14
  {
    Padded(t.year, 4) + Padded(t.month, 2) + Padded(t.day, 2) +
    Padded(t.hour, 2) + Padded(t.minute, 2) + Padded(t.second, 2)
  }

  function WorkspaceIdentifier(t: Timestamp): (id: string)
    requires ValidTimestamp(t)
    ensures |id| == |Prefix| + 14 && id[..|Prefix|] == Prefix
    ensures forall i :: |Prefix| <= i < |id| ==> IsDigit(id[i])
  {
    Prefix + Stamp(t)
  }

  /** Reads the timestamp back out of an identifier. */
  function ParseIdentifier(id: string): Timestamp
    requires |id| == |Prefix| + 14 && forall i :: |Prefix| <= i < |id| ==> IsDigit(id[i])
  {
    var s := id[|Prefix|..];
    Timestamp(DigitsValue(s[0..4]), DigitsValue(s[4..6]), DigitsValue(s[6..8]),
              DigitsValue(s[8..10]), DigitsValue(s[10..12]), DigitsValue(s[12..14]))
  }

  /** The identifier determines the second it was made in. */
  lemma {:induction false} IdentifierRoundTrip(t: Timestamp)
    requires ValidTimestamp(t)
    ensures ParseIdentifier(WorkspaceIdentifier(t)) == t
  {
    var y, mo, d := Padded(t.year, 4), Padded(t.month, 2), Padded(t.day, 2);
    var h, mi, se := Padded(t.hour, 2), Padded(t.minute, 2), Padded(t.second, 2);
    var s := WorkspaceIdentifier(t)[|Prefix|..];
    assert s == y + mo + d + h + mi + se;
    assert s[0..4] == y && s[4..6] == mo && s[6..8] == d;
    assert s[8..10] == h && s[10..12] == mi && s[12..14] == se;
    PaddedValue(t.year, 4);
    PaddedValue(t.month, 2);
    PaddedValue(t.day, 2);
    PaddedValue(t.hour, 2);
    PaddedValue(t.minute, 2);
    PaddedValue(t.second, 2);
  }

  /** Workspaces made in different seconds get different identifiers. */
  lemma IdentifiersDistinct(t1: Timestamp, t2: Timestamp)
    requires ValidTimestamp(t1) && ValidTimestamp(t2) && t1 != t2
    ensures WorkspaceIdentifier(t1) != WorkspaceIdentifier(t2)
  {
    IdentifierRoundTrip(t1);
    IdentifierRoundTrip(t2);
  }
}
