/**
 * The label fallback of the change handler (main.js): the date labels are
 * shown as they are only when every one of them is usable; otherwise every
 * point is labelled by its 1-based index instead.
 */
module Presentation {

  /** A label JavaScript accepts in `x && x !== "undefined"`: non-empty and not the text "undefined". */
  predicate Usable(text: string) {
    text != "" && text != "undefined"
  }

  predicate AllUsable(labels: seq<string>) {
    forall i :: 0 <= i < |labels| ==> Usable(labels[i])
  }

  predicate IsDigit(c: char) {
    '0' <= c <= '9'
  }

  predicate AllDigits(s: string) {
    forall i :: 0 <= i < |s| ==> IsDigit(s[i])
  }

  function DigitChar(d: nat): (c: char)
    requires d < 10
    ensures IsDigit(c) && c as int - '0' as int == d
  {
    (d + '0' as int) as char
  }

  /** `String(n)` for a non-negative integer: its decimal digits, without leading zeros. */
  function NatToString(n: nat): (s: string)
    ensures |s| > 0 && AllDigits(s)
    ensures n > 0 ==> s[0] != '0'
    decreases n
  {
    if n < 10 then [DigitChar(n)]
    else NatToString(n / 10) + [DigitChar(n % 10)]
  }

  /** The number a string of decimal digits denotes. */
  function DigitsValue(s: string): nat
    requires AllDigits(s)
    decreases |s|
  {
    if s == [] then 0
    else DigitsValue(s[..|s| - 1]) * 10 + (s[|s| - 1] as int - '0' as int)
  }

  /** Reading the decimal digits back gives the number: `String` is injective on indices. */
  lemma {:induction false} NatToStringRoundTrip(n: nat)
    ensures DigitsValue(NatToString(n)) == n
    decreases n
  {
    if n >= 10 {
      NatToStringRoundTrip(n / 10);
      var s := NatToString(n);
      assert s[..|s| - 1] == NatToString(n / 10);
    }
  }

  /** `weights.map((_, i) => String(i + 1))`: the labels "1" .. "n". */
  function IndexLabels(n: nat): (labels: seq<string>)
    ensures |labels| == n
    ensures AllUsable(labels)
  {
    var labels := seq(n, i requires 0 <= i => NatToString(i + 1));
    forall i | 0 <= i < n
      ensures Usable(labels[i])
    {
      assert labels[i][0] != "undefined"[0];
    }
    labels
  }

  /** The i-th index label spells the number i + 1. */
  lemma IndexLabelsSpell(n: nat)
    ensures forall i :: 0 <= i < n ==> AllDigits(IndexLabels(n)[i]) && DigitsValue(IndexLabels(n)[i]) == i + 1
  {
    forall i | 0 <= i < n
      ensures AllDigits(IndexLabels(n)[i]) && DigitsValue(IndexLabels(n)[i]) == i + 1
    {
      NatToStringRoundTrip(i + 1);
    }
  }

  /** The index labels are pairwise distinct. */
  lemma IndexLabelsDistinct(n: nat)
    ensures forall i, j :: 0 <= i < j < n ==> IndexLabels(n)[i] != IndexLabels(n)[j]
  {
    IndexLabelsSpell(n);
  }

  /**
   * `dates.every(x => x && x !== "undefined") ? dates : weights.map(...)`
   * with `n` the number of weights: all or nothing, never a per-point mix.
   */
  function ResolveLabels(dates: seq<string>, n: nat): (labels: seq<string>)
    ensures labels == dates <==> AllUsable(dates)
    ensures labels == dates || labels == IndexLabels(n)
    ensures |dates| == n ==> |labels| == n
    ensures AllUsable(labels)
  {
    if AllUsable(dates) then dates else IndexLabels(n)
  }

  /** Resolving labels a second time changes nothing. */
  lemma ResolveLabelsIdempotent(dates: seq<string>, n: nat)
    requires |dates| == n
    ensures ResolveLabels(ResolveLabels(dates, n), n) == ResolveLabels(dates, n)
  {
  }

  /** Three blank labels become "1", "2", "3". */
  lemma BlankLabelsFallBack()
    ensures ResolveLabels(["", "", ""], 3) == ["1", "2", "3"]
  {
    assert !Usable(["", "", ""][0]);
    assert IndexLabels(3) == [NatToString(1), NatToString(2), NatToString(3)];
  }
}
