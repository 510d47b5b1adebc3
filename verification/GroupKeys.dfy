/** The delimited strings of the analysis batch, and how they are read back. */
module GroupKeys {

  function IndexOf(v: string, c: char): (i: nat)
    ensures i <= |v| && (i < |v| ==> v[i] == c) && forall k :: 0 <= k < i ==> v[k] != c
  {
    if v == "" || v[0] == c then 0 else 1 + IndexOf(v[1..], c)
  }

  function LastIndexOf(v: string, c: char): (i: nat)
    requires c in v
    ensures i < |v| && v[i] == c && forall k :: i < k < |v| ==> v[k] != c
  {
    if v[|v| - 1] == c then |v| - 1 else LastIndexOf(v[..|v| - 1], c)
  }

  function SystemKey(tenant: string, system: string): string {
    tenant + "|" + system
  }

  function CorrelationGroupKey(tenant: string, system: string, correlation: string): string {
    tenant + "|" + system + "|" + correlation
  }

  function DurationKey(tenant: string, system: string, family: string): string {
    tenant + "|" + system + "|" + family
  }

  /** Everything before the first bar, and everything after it. */
  function ParseSystemKey(v: string): (string, string) {
    var i := IndexOf(v, '|');
    if i == |v| then (v, "") else (v[..i], v[i + 1..])
  }

  /** The first two bar-separated parts, and the rest. */
  function ParseCorrelationKey(v: string): (string, string, string) {
    var (tenant, rest) := ParseSystemKey(v);
    var (system, correlation) := ParseSystemKey(rest);
    (tenant, system, correlation)
  }

  /** Cut at the first and at the last bar. */
  function ParseDurationKey(v: string): (string, string, string)
    requires '|' in v
  {
    var first := IndexOf(v, '|');
    var last := LastIndexOf(v, '|');
    (v[..first], if first < last then v[first + 1..last] else "", v[last + 1..])
  }

  lemma FirstBar(a: string, b: string)
    ensures ParseSystemKey(a + "|" + b) == (a, b) <==> '|' !in a
    ensures '|' in a ==> |ParseSystemKey(a + "|" + b).0| < |a|
  {
    var v := a + "|" + b;
    var i := IndexOf(v, '|');
    assert v[|a|] == '|';
    if '|' in a {
      var k :| 0 <= k < |a| && a[k] == '|';
      assert v[k] == '|';
    } else {
      assert i == |a|;
      assert v[..i] == a && v[i + 1..] == b;
    }
  }

  /** Reading a key back recovers the pair exactly when the tenant holds no bar. */
  lemma SystemKeyRoundTrip(tenant: string, system: string)
    ensures ParseSystemKey(SystemKey(tenant, system)) == (tenant, system) <==> '|' !in tenant
  {
    FirstBar(tenant, system);
  }

  /** Here a bar in the system name is fatal too: what follows it is taken for the correlation key. */
  lemma CorrelationKeyRoundTrip(tenant: string, system: string, correlation: string)
    ensures ParseCorrelationKey(CorrelationGroupKey(tenant, system, correlation)) == (tenant, system, correlation)
      <==> '|' !in tenant && '|' !in system
  {
    var rest := system + "|" + correlation;
    assert CorrelationGroupKey(tenant, system, correlation) == tenant + "|" + rest;
    FirstBar(tenant, rest);
    FirstBar(system, correlation);
  }

  lemma DurationKeyShapes(tenant: string, system: string, family: string)
    ensures DurationKey(tenant, system, family) == (tenant + "|" + system) + "|" + family
    ensures DurationKey(tenant, system, family) == tenant + "|" + (system + "|" + family)
  {
  }

  /** Cutting at the last bar as well spares duration keys that: only the tenant matters, family names
      having no bar. */
  lemma DurationKeyRoundTrip(tenant: string, system: string, family: string)
    requires '|' !in family
    ensures ParseDurationKey(DurationKey(tenant, system, family)) == (tenant, system, family) <==> '|' !in tenant
  {
    var v := DurationKey(tenant, system, family);
    var head := tenant + "|" + system;
    LastBar(head, family);
    DurationKeyShapes(tenant, system, family);
    FirstIndex(tenant, system + "|" + family);
    var first := IndexOf(v, '|');
    assert |v[..first]| == first;
    if '|' !in tenant {
      assert v[..first] == tenant && v[first + 1..|head|] == system;
    }
  }

  lemma FirstIndex(a: string, b: string)
    ensures '|' !in a ==> IndexOf(a + "|" + b, '|') == |a|
    ensures '|' in a ==> IndexOf(a + "|" + b, '|') < |a|
  {
    var v := a + "|" + b;
    assert v[|a|] == '|';
    if '|' in a {
      var k :| 0 <= k < |a| && a[k] == '|';
      assert v[k] == '|';
    }
  }

  lemma {:induction false} LastBar(a: string, b: string)
    requires '|' !in b
    ensures LastIndexOf(a + "|" + b, '|') == |a| && (a + "|" + b)[|a| + 1..] == b
  {
    var v := a + "|" + b;
    assert v[|a|] == '|';
    assert forall k :: |a| < k < |v| ==> v[k] == b[k - |a| - 1];
  }

  // ----- parts peeled off either end of a joined text

  lemma PeelFirst(a: string, x: string, b: string, y: string)
    requires '|' !in a && '|' !in b
    ensures a + "|" + x == b + "|" + y <==> a == b && x == y
  {
    FirstBar(a, x);
    FirstBar(b, y);
  }

  lemma PeelLast(x: string, a: string, y: string, b: string)
    requires '|' !in a && '|' !in b
    ensures x + "|" + a == y + "|" + b <==> x == y && a == b
  {
    LastBar(x, a);
    LastBar(y, b);
    if x + "|" + a == y + "|" + b {
      assert (x + "|" + a)[..|x|] == x && (y + "|" + b)[..|y|] == y;
    }
  }

  /** Whatever holds a bar is put back together from its two parts. */
  lemma SystemKeyRejoins(v: string)
    requires '|' in v
    ensures var (tenant, system) := ParseSystemKey(v); v == SystemKey(tenant, system)
  {
  }
}
