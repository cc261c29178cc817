/**
 The names under which percentiles are reported: "<field>_p<percentile>"
 (internal/collector/aggregators/percentile/percentile.go).
 */
module PercentileKeys {
  import opened Aggregation

  function Digit(d: nat): char
    requires d < 10
  {
    '0' + d as char
  }

  function Decimal(n: nat): string {
    if n < 10 then [Digit(n)] else Decimal(n / 10) + [Digit(n % 10)]
  }

  /** The number a string of digits stands for. */
  function Number(s: string): int {
    if s == "" then 0 else Number(s[..|s| - 1]) * 10 + (s[|s| - 1] as int - '0' as int)
  }

  lemma {:induction false} DecimalReads(n: nat)
    ensures Decimal(n) != "" && Number(Decimal(n)) == n && 'p' !in Decimal(n)
    decreases n
  {
    if n < 10 {
      assert Decimal(n)[..0] == "";
    } else {
      DecimalReads(n / 10);
      assert Decimal(n)[..|Decimal(n)| - 1] == Decimal(n / 10);
    }
  }

  function KeyOf(k: (string, Percent)): string {
    k.0 + "_p" + Decimal(k.1)
  }

  /** A name spells the field, "_p" and the percentile in decimal. */
  lemma KeySpells(f: string, p: Percent) returns (digits: string)
    ensures KeyOf((f, p)) == f + "_p" + digits && Number(digits) == p && |digits| == if p < 10 then 1 else if p < 100 then 2 else 3
    ensures forall c :: c in digits ==> '0' <= c <= '9'
  {
    digits := Decimal(p);
    DecimalReads(p);
    assert p >= 10 ==> Decimal(p) == Decimal(p / 10) + [Digit(p % 10)];
    assert p >= 100 ==> Decimal(p / 10) == [Digit(p / 10 / 10)] + [Digit(p / 10 % 10)];
  }

  /** The last "p" of a key comes before its number, so numbers of different lengths give different keys. */
  lemma NumbersAlign(a: (string, Percent), b: (string, Percent))
    requires KeyOf(a) == KeyOf(b)
    ensures |Decimal(a.1)| >= |Decimal(b.1)|
  {
    hide Decimal;
    var m, n, s := |Decimal(a.1)|, |Decimal(b.1)|, KeyOf(a);
    DecimalReads(b.1);
    assert s[|s| - m - 1] == 'p' && s[|s| - n..] == Decimal(b.1);
  }

  /** Different fields or percentiles are never reported under one name. */
  lemma KeyInjective(a: (string, Percent), b: (string, Percent))
    requires KeyOf(a) == KeyOf(b)
    ensures a == b
  {
    hide Decimal;
    NumbersAlign(a, b);
    NumbersAlign(b, a);
    var n, s := |Decimal(a.1)|, KeyOf(a);
    assert s[|s| - n..] == Decimal(a.1) && s[|s| - n..] == Decimal(b.1);
    assert s[..|s| - n - 2] == a.0 && s[..|s| - n - 2] == b.0;
    DecimalReads(a.1);
    DecimalReads(b.1);
  }

  lemma KeysDiffer()
    ensures forall a, b :: KeyOf(a) == KeyOf(b) ==> a == b
  {
    forall a, b | KeyOf(a) == KeyOf(b) ensures a == b {
      KeyInjective(a, b);
    }
  }

  /** A report under its rendered names. */
  ghost function Rendered(report: map<(string, Percent), real>): map<string, real> {
    KeysDiffer();
    map k | k in report :: KeyOf(k) := report[k]
  }

  /** Rendering loses nothing: each entry is found under its own name, and nothing else is there. */
  lemma RenderedAt(report: map<(string, Percent), real>, k: (string, Percent))
    ensures KeyOf(k) in Rendered(report) <==> k in report
    ensures k in report ==> Rendered(report)[KeyOf(k)] == report[k]
    ensures forall name :: name in Rendered(report) ==> exists j :: j in report && KeyOf(j) == name
  {
    hide KeyOf;
    KeysDiffer();
  }

  lemma RenderedNone()
    ensures Rendered(map[]) == map[]
  {}

  lemma RenderedPut(report: map<(string, Percent), real>, k: (string, Percent), v: real)
    ensures Rendered(report[k := v]) == Rendered(report)[KeyOf(k) := v]
  {
    hide KeyOf;
    KeysDiffer();
  }
}
