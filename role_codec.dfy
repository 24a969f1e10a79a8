/**
 * The text form in which the bot stores a guild's required role ids:
 * the ids written in decimal and joined with commas, or no value at all
 * (SQL NULL) for an empty list.
 */
module RoleCodec {
  import opened Wrappers
  import opened Text

  type RoleId = nat

  predicate IsDigit(c: char) {
    '0' <= c <= '9'
  }

  function DigitChar(d: nat): (c: char)
    requires d < 10
    ensures IsDigit(c)
  {
    ['0', '1', '2', '3', '4', '5', '6', '7', '8', '9'][d]
  }

  function DigitValue(c: char): (d: nat)
    requires IsDigit(c)
    ensures d < 10 && DigitChar(d) == c
  {
    (c as int - '0' as int) as nat
  }

  /** Python's `str(n)` for a non-negative integer: no sign, no leading zero. */
  function Decimal(n: nat): (s: string)
    ensures |s| > 0
    ensures forall i :: 0 <= i < |s| ==> IsDigit(s[i])
    ensures s[0] == '0' ==> s == "0"
    decreases n
  {
    if n < 10 then [DigitChar(n)] else Decimal(n / 10) + [DigitChar(n % 10)]
  }

  /** The value of a string of decimal digits, most significant first. */
  function DigitsValue(s: string): nat
    requires forall i :: 0 <= i < |s| ==> IsDigit(s[i])
  {
    if s == [] then 0 else 10 * DigitsValue(s[..|s| - 1]) + DigitValue(s[|s| - 1])
  }

  /**
   * Python's `int(s)` restricted to plain decimal text: a non-empty run of
   * ASCII digits gives its value, anything else raises `ValueError` (None).
   */
  function ParseInt(s: string): (r: Option<nat>)
    ensures r.Some? <==> |s| > 0 && forall i :: 0 <= i < |s| ==> IsDigit(s[i])
  {
    if |s| > 0 && forall i :: 0 <= i < |s| ==> IsDigit(s[i]) then Some(DigitsValue(s)) else None
  }

  lemma {:induction false} DecimalValue(n: nat)
    ensures DigitsValue(Decimal(n)) == n
    decreases n
  {
    if n >= 10 {
      var s := Decimal(n);
      assert s[..|s| - 1] == Decimal(n / 10);
      DecimalValue(n / 10);
    }
  }

  /** `int(str(n)) == n`: the decimal form of an id reads back as the id. */
  lemma DecimalRoundTrip(n: nat)
    ensures ParseInt(Decimal(n)) == Some(n)
  {
    DecimalValue(n);
  }

  /** Python's `s.split(',')`: the pieces between single commas, at least one. */
  function SplitComma(s: string): (parts: seq<string>)
    ensures |parts| >= 1
    ensures forall j :: 0 <= j < |parts| ==> ',' !in parts[j]
    decreases |s|
  {
    var k := IndexOf(s, ',');
    if k == |s| then [s] else [s[..k]] + SplitComma(s[k + 1..])
  }

  /** Python's `','.join(parts)`. */
  function JoinComma(parts: seq<string>): string {
    if parts == [] then ""
    else if |parts| == 1 then parts[0]
    else parts[0] + "," + JoinComma(parts[1..])
  }

  /** Splitting at commas undoes joining with commas, for comma-free non-empty lists. */
  lemma {:induction false} SplitJoin(parts: seq<string>)
    requires |parts| >= 1
    requires forall j :: 0 <= j < |parts| ==> ',' !in parts[j]
    ensures SplitComma(JoinComma(parts)) == parts
    decreases |parts|
  {
    var s := JoinComma(parts);
    assert forall i :: 0 <= i < |parts[0]| ==> parts[0][i] != ',';
    if |parts| == 1 {
      IndexOfAt(s, ',', |s|);
    } else {
      var rest := JoinComma(parts[1..]);
      assert s == parts[0] + "," + rest;
      IndexOfAt(s, ',', |parts[0]|);
      assert s[..|parts[0]|] == parts[0];
      assert s[|parts[0]| + 1..] == rest;
      SplitJoin(parts[1..]);
    }
  }

  function Decimals(ids: seq<RoleId>): (texts: seq<string>)
    ensures |texts| == |ids|
    ensures forall j :: 0 <= j < |ids| ==> texts[j] == Decimal(ids[j])
  {
    if ids == [] then [] else [Decimal(ids[0])] + Decimals(ids[1..])
  }

  /** `int(rid)` for each piece, failing as a whole when one piece fails. */
  function ParseInts(texts: seq<string>): (r: Option<seq<RoleId>>)
    ensures r.Some? ==> |r.value| == |texts|
    ensures r.Some? ==> forall j :: 0 <= j < |texts| ==> ParseInt(texts[j]) == Some(r.value[j])
    ensures r.None? ==> exists j :: 0 <= j < |texts| && ParseInt(texts[j]).None?
  {
    if texts == [] then Some([])
    else match ParseInt(texts[0])
      case None => None
      case Some(v) =>
        match ParseInts(texts[1..])
        case None => None
        case Some(vs) => Some([v] + vs)
  }

  /**
   * `','.join(str(rid) for rid in role_ids) if role_ids else None`:
   * no stored text for an empty list, otherwise non-empty digit-and-comma text.
   */
  function SerializeRoleIds(ids: seq<RoleId>): (text: Option<string>)
    ensures text.None? <==> ids == []
    ensures text.Some? ==> |text.value| > 0
  {
    if ids == [] then None else Some(JoinComma(Decimals(ids)))
  }

  /**
   * `[int(rid) for rid in role_ids_str.split(',')] if role_ids_str else []`:
   * NULL and the empty string give no roles; a piece that is not a number
   * makes the whole parse fail (the `ValueError` the caller catches).
   */
  function ParseRoleIds(text: Option<string>): (r: Option<seq<RoleId>>)
    ensures text.None? || text.value == "" ==> r == Some([])
  {
    if text.None? || text.value == "" then Some([]) else ParseInts(SplitComma(text.value))
  }

  /** Reading back what was stored gives the very list that was stored. */
  lemma RoleIdsRoundTrip(ids: seq<RoleId>)
    ensures ParseRoleIds(SerializeRoleIds(ids)) == Some(ids)
  {
    if ids != [] {
      var texts := Decimals(ids);
      forall j | 0 <= j < |texts| ensures ',' !in texts[j] {
        assert forall i :: 0 <= i < |texts[j]| ==> IsDigit(texts[j][i]);
      }
      SplitJoin(texts);
      ParseDecimals(ids);
    }
  }

  lemma {:induction false} ParseDecimals(ids: seq<RoleId>)
    ensures ParseInts(Decimals(ids)) == Some(ids)
    decreases |ids|
  {
    if ids != [] {
      var texts := Decimals(ids);
      DecimalRoundTrip(ids[0]);
      assert texts[0] == Decimal(ids[0]);
      assert texts[1..] == Decimals(ids[1..]);
      ParseDecimals(ids[1..]);
      assert [ids[0]] + ids[1..] == ids;
    }
  }
}
