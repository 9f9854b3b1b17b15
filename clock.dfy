/**
 * Reading a clock display ("MM:SS", "HH:MM:SS") back into seconds. The duration formatters
 * of the page model and of the browser script are checked against this reader.
 */
module Clock {
  import opened Wrappers
  import opened Text

  const COLON: char := ':'

  /** Every piece is a non-empty run of decimal digits. */
  predicate AllNumerals(parts: seq<string>)
  {
    forall k :: 0 <= k < |parts| ==> parts[k] != [] && AllDigits(parts[k])
  }

  /** The numbers between the colons of `s`; None when a piece is empty or not all digits. */
  function Fields(s: string): (r: Option<seq<nat>>)
    ensures r.Some? ==> |r.value| == |SplitAll(s, COLON)|
  {
    var parts := SplitAll(s, COLON);
    if AllNumerals(parts) then Some(seq(|parts|, k requires 0 <= k < |parts| => DigitsValue(parts[k])))
    else None
  }

  /** The fields read as base-60 digits, most significant first. */
  function Seconds(fields: seq<nat>): nat
  {
    if fields == [] then 0 else Seconds(fields[..|fields| - 1]) * 60 + fields[|fields| - 1]
  }

  /** A run of digits holds no colon. */
  lemma DigitsHaveNoColon(s: string)
    requires AllDigits(s)
    ensures COLON !in s
  {
    forall k | 0 <= k < |s| ensures s[k] != COLON {
      assert IsDigit(s[k]);
    }
  }

  /** Pieces that are all numerals read back as their values. */
  lemma FieldsOfNumerals(s: string, parts: seq<string>)
    requires SplitAll(s, COLON) == parts && AllNumerals(parts)
    ensures Fields(s) == Some(seq(|parts|, k requires 0 <= k < |parts| => DigitsValue(parts[k])))
  {
  }

  /** Two zero-padded fields joined by a colon read back as those two numbers. */
  lemma TwoFields(a: nat, b: nat)
    ensures Fields(Pad2(a) + [COLON] + Pad2(b)) == Some([a, b])
  {
    var pa, pb := Pad2(a), Pad2(b);
    DigitsHaveNoColon(pa);
    DigitsHaveNoColon(pb);
    SplitAtFirst(pa, COLON, pb);
    var parts := [pa, pb];
    assert SplitAll(pa + [COLON] + pb, COLON) == parts;
    FieldsOfNumerals(pa + [COLON] + pb, parts);
    var values := seq(|parts|, k requires 0 <= k < |parts| => DigitsValue(parts[k]));
    assert values[0] == a && values[1] == b;
    assert values == [a, b];
  }

  /** Three pieces without colons, joined by colons, split back into those pieces. */
  lemma SplitThree(pa: string, pb: string, pc: string)
    requires COLON !in pa && COLON !in pb && COLON !in pc
    ensures SplitAll(pa + [COLON] + pb + [COLON] + pc, COLON) == [pa, pb, pc]
  {
    var rest := pb + [COLON] + pc;
    assert pa + [COLON] + pb + [COLON] + pc == pa + [COLON] + rest;
    SplitAtFirst(pa, COLON, rest);
    SplitAtFirst(pb, COLON, pc);
    assert SplitAll(pc, COLON) == [pc];
  }

  /** Three zero-padded fields joined by colons read back as those three numbers. */
  lemma ThreeFields(a: nat, b: nat, c: nat)
    ensures Fields(Pad2(a) + [COLON] + Pad2(b) + [COLON] + Pad2(c)) == Some([a, b, c])
  {
    var pa, pb, pc := Pad2(a), Pad2(b), Pad2(c);
    DigitsHaveNoColon(pa);
    DigitsHaveNoColon(pb);
    DigitsHaveNoColon(pc);
    SplitThree(pa, pb, pc);
    var parts := [pa, pb, pc];
    FieldsOfNumerals(pa + [COLON] + pb + [COLON] + pc, parts);
    var values := seq(|parts|, k requires 0 <= k < |parts| => DigitsValue(parts[k]));
    assert values[0] == a && values[1] == b && values[2] == c;
    assert values == [a, b, c];
  }

  lemma SecondsOfTwo(x: nat, y: nat)
    ensures Seconds([x, y]) == x * 60 + y
  {
    assert [x, y][..1] == [x];
    assert [x][..0] == [];
    assert Seconds([x]) == Seconds([]) * 60 + x;
    assert Seconds([x, y]) == Seconds([x]) * 60 + y;
  }

  lemma SecondsOfThree(x: nat, y: nat, z: nat)
    ensures Seconds([x, y, z]) == (x * 60 + y) * 60 + z
  {
    assert [x, y, z][..2] == [x, y];
    SecondsOfTwo(x, y);
    assert Seconds([x, y, z]) == Seconds([x, y]) * 60 + z;
  }

  /** Splitting a count of seconds into hours, minutes and seconds and reading it back. */
  lemma HoursMinutesSeconds(d: nat)
    ensures (d % 3600) / 60 < 60 && d % 60 < 60
    ensures Seconds([d / 3600, (d % 3600) / 60, d % 60]) == d
    ensures Seconds([d / 60, d % 60]) == d
  {
    var q, r := d / 3600, d % 3600;
    var m, s := r / 60, r % 60;
    assert d == 3600 * q + r;
    assert r == 60 * m + s;
    DivideBySixty(d, 60 * q + m, s);
    SecondsOfThree(q, m, s);
    SecondsOfTwo(d / 60, d % 60);
  }

  lemma DivideBySixty(d: int, q: int, s: int)
    requires d == 60 * q + s && 0 <= s < 60
    ensures d / 60 == q && d % 60 == s
  {
  }
}
