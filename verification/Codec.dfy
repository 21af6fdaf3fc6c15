/**
How door-sync writes names and card numbers into UniFi and reads them back.
*/
module Codec {
  import opened Models
  import opened Text

  const EM_DASH: char := '\U{2014}'
  const ALIAS_PREFIX := "sync-"
  const CARD_NUMBERS: nat := 0x1_0000
  const FACILITY_CODES: nat := 0x100

  // ---- card numbers ----

  /** The bits of an integer that differ from its sign. */
  function Magnitude(n: int): nat {
    if n < 0 then -n - 1 else n
  }

  /** Bitwise or, on two's complement bits. */
  function BitOr(a: int, b: int): (r: int)
    ensures a >= 0 && b >= 0 ==> r >= 0
    decreases Magnitude(a) + Magnitude(b)
  {
    if Magnitude(a) == 0 && Magnitude(b) == 0 then (if a == b then a else -1)
    else 2 * BitOr(a / 2, b / 2) + (if a % 2 == 1 || b % 2 == 1 then 1 else 0)
  }

  function Pow2(k: nat): (p: nat)
    ensures p >= 1
  {
    if k == 0 then 1 else 2 * Pow2(k - 1)
  }

  /** The hexadecimal text UniFi uses for a Wiegand-26 (facility, card) pair. */
  function ComputeNfcId(facility: nat, card: CardId): string {
    PrintSigned(BitOr(facility * CARD_NUMBERS, card), 16)
  }

  /** The card number inside an nfc id, when it belongs to the expected facility. */
  function ParseNfcId(text: string, facility: nat): Option<nat> {
    var value := ParseSigned(text, 16);
    if value.None? then None
    else if (value.value / CARD_NUMBERS) % FACILITY_CODES != facility then None
    else Some(value.value % CARD_NUMBERS)
  }

  /** The alias stamped on an imported card. */
  function SyncAlias(card: CardId): string {
    ALIAS_PREFIX + if card < 0 then "-" + PadLeft(Print(-card, 10), 4) else PadLeft(Print(card, 10), 5)
  }

  /** The card number door-sync encoded in an alias. */
  function ParseSyncAlias(alias: string): Option<nat> {
    if ALIAS_PREFIX <= alias then Parse(alias[|ALIAS_PREFIX|..], 10) else None
  }

  // ---- names ----

  function LastSpace(s: string): (i: Option<nat>)
    ensures i.Some? ==> i.value < |s| && s[i.value] == ' ' && ' ' !in s[i.value + 1..]
    ensures i.None? <==> ' ' !in s
  {
    if s == [] then None
    else if s[|s| - 1] == ' ' then Some(|s| - 1)
    else
      assert s == s[..|s| - 1] + [s[|s| - 1]];
      LastSpace(s[..|s| - 1])
  }

  /** First and last name as written to UniFi: the split is at the last space. */
  function SplitName(name: string): (string, string)
    requires name != ""
  {
    match LastSpace(name)
    case None => (name, [EM_DASH])
    case Some(i) => (name[..i], name[i + 1..])
  }

  /** The display name as read back from UniFi: the non-empty parts, joined and trimmed. */
  function JoinName(first: string, last: string): string {
    Strip(if first == "" then last else if last == "" then first else first + " " + last)
  }

  /** A name survives being written and read back. */
  predicate NameRoundTrips(name: string)
    requires name != ""
  {
    var parts := SplitName(name);
    JoinName(parts.0, parts.1) == name
  }

  // ---- properties ----

  lemma {:induction false} BitOrZero(a: nat)
    ensures BitOr(a, 0) == a
  {
    if a > 0 {
      BitOrZero(a / 2);
    }
  }

  /** Disjoint bit ranges: "or" is addition. */
  lemma {:induction false} BitOrDisjoint(hi: nat, lo: nat, k: nat)
    requires lo < Pow2(k)
    ensures BitOr(hi * Pow2(k), lo) == hi * Pow2(k) + lo
  {
    if k == 0 {
      BitOrZero(hi);
    } else {
      var p := Pow2(k - 1);
      assert hi * Pow2(k) == 2 * (hi * p);
      BitOrDisjoint(hi, lo / 2, k - 1);
    }
  }

  /** The decoder on every number: it accepts exactly the numbers of its own facility. */
  lemma NfcDecoderExact(n: int, facility: nat)
    ensures ParseNfcId(PrintSigned(n, 16), facility) ==
            if (n / CARD_NUMBERS) % FACILITY_CODES == facility then Some(n % CARD_NUMBERS) else None
  {
    ParsePrintSigned(n, 16);
  }

  lemma Packed(facility: nat, card: nat)
    requires facility < FACILITY_CODES && card < CARD_NUMBERS
    ensures var n := facility * CARD_NUMBERS + card;
            n / CARD_NUMBERS == facility && n % CARD_NUMBERS == card && facility % FACILITY_CODES == facility
  {
  }

  lemma NfcIsPacked(facility: nat, card: nat)
    requires card < CARD_NUMBERS
    ensures ComputeNfcId(facility, card) == PrintSigned(facility * CARD_NUMBERS + card, 16)
  {
    Pow2Of16();
    BitOrDisjoint(facility, card, 16);
  }

  /** Exactly the cards that pass the range guard survive encoding and decoding. */
  lemma NfcRoundTrip(facility: nat, card: CardId)
    requires facility < FACILITY_CODES
    ensures ParseNfcId(ComputeNfcId(facility, card), facility) == Some(card) <==> 0 <= card < CARD_NUMBERS
  {
    NfcDecoderExact(BitOr(facility * CARD_NUMBERS, card), facility);
    if 0 <= card < CARD_NUMBERS {
      NfcIsPacked(facility, card);
      NfcDecoderExact(facility * CARD_NUMBERS + card, facility);
      Packed(facility, card);
    }
  }

  lemma Pow2Of16()
    ensures Pow2(16) == CARD_NUMBERS
  {
    assert Pow2(4) == 16;
    assert Pow2(8) == 16 * Pow2(4);
    assert Pow2(12) == 16 * Pow2(8);
    assert Pow2(16) == 16 * Pow2(12);
  }

  /** Every card number is recovered from its alias, whatever the padding; a negative one never is. */
  lemma AliasRoundTrip(card: CardId)
    ensures ParseSyncAlias(SyncAlias(card)) == if card < 0 then None else Some(card)
  {
    if card < 0 {
      SignIsNoDigit(PadLeft(Print(-card, 10), 4), 10);
      assert SyncAlias(card)[|ALIAS_PREFIX|..] == "-" + PadLeft(Print(-card, 10), 4);
    } else {
      NumberRoundTrip(card);
    }
  }

  lemma {:induction false} SignIsNoDigit(s: string, base: nat)
    requires base == 10 || base == 16
    ensures Parse("-" + s, base) == None
  {
    if s == [] {
      assert "-"[..0] == [];
    } else {
      assert ("-" + s)[..|s|] == "-" + s[..|s| - 1];
      SignIsNoDigit(s[..|s| - 1], base);
    }
  }

  lemma NumberRoundTrip(card: nat)
    ensures ParseSyncAlias(SyncAlias(card)) == Some(card)
  {
    var digits := Print(card, 10);
    var padded := PadLeft(digits, 5);
    assert SyncAlias(card)[|ALIAS_PREFIX|..] == padded;
    ParsePrint(card, 10);
    if |digits| < 5 {
      ParseIgnoresLeadingZeros(5 - |digits|, digits, 10);
    }
  }

  /** A name round-trips exactly when it contains a space and is trimmed. */
  lemma NameRoundTripExact(name: string)
    requires name != ""
    ensures NameRoundTrips(name) <==> ' ' in name && Trimmed(name)
  {
    var (first, last) := SplitName(name);
    var joined := if first == "" then last else if last == "" then first else first + " " + last;
    StripIsTrimmed(joined);
    match LastSpace(name)
    case Some(i) =>
      if Trimmed(name) {
        assert name[0] != ' ' && name[|name| - 1] != ' ';
        assert name == name[..i] + " " + name[i + 1..] == joined;
        StripTrimmed(name);
      }
    case None =>
      assert last == [EM_DASH];
      DashNeverJoinsBack(name);
  }

  /** A single word gets a dash for a last name and comes back with it. */
  lemma SingleWordSticks()
    ensures !NameRoundTrips("Cher")
  {
  }

  lemma DashNeverJoinsBack(name: string)
    requires name != "" && ' ' !in name
    ensures Strip(name + " " + [EM_DASH]) != name
  {
    var joined := name + " " + [EM_DASH];
    TrimLeftSuffix(name, [' ', EM_DASH]);
    assert joined == name + [' ', EM_DASH];
    var t := TrimLeft(joined);
    assert t[|t| - 1] == EM_DASH;
    assert TrimRight(t) == t;
    if name == [EM_DASH] {
      assert t == joined;
    }
  }

  lemma {:induction false} TrimLeftSuffix(s: string, tail: string)
    requires |tail| == 2 && !IsSpace(tail[1])
    ensures var t := TrimLeft(s + tail);
            t != [] && t[|t| - 1] == tail[1] && (|t| >= 2 ==> t[|t| - 2] == tail[0])
  {
    var all := s + tail;
    if s == [] {
      assert all == tail;
      assert tail[1..] == [tail[1]];
    } else if IsSpace(s[0]) {
      assert all[1..] == s[1..] + tail;
      TrimLeftSuffix(s[1..], tail);
    }
  }
}
