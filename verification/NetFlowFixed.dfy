/** Data sets of fixed-length templates are cut into equal slices. */
module NetFlowFixed {
  import opened Bytes
  import opened NetFlowTypes
  import opened NetFlowParser

  predicate Fixed(fs: seq<Field>)
  {
    forall i :: 0 <= i < |fs| ==> fs[i].length != VARIABLE
  }

  /** The octets of the decoded values, in order. */
  function ValueBytes(dfs: seq<DataField>): bytes
  {
    if dfs == [] then []
    else (if dfs[0].value.Unsupported? then [] else dfs[0].value.data) + ValueBytes(dfs[1..])
  }

  function RecordBytes(rs: seq<DataRecord>): bytes
  {
    if rs == [] then [] else ValueBytes(rs[0].scopes) + ValueBytes(rs[0].values) + RecordBytes(rs[1..])
  }

  lemma {:induction false} FixedValues(fs: seq<Field>, s: bytes)
    requires Fixed(fs) && |s| >= TemplateSize(fs)
    ensures var r := DecodeValues(fs, s);
            r.Some? && ValueBytes(r.value.0) == s[..TemplateSize(fs)] && r.value.1 == s[TemplateSize(fs)..]
  {
    if fs != [] {
      var n, m := fs[0].length, TemplateSize(fs[1..]);
      FixedValues(fs[1..], s[n..]);
      assert DecodeValue(fs[0], s).value.1 == s[n..];
      assert s[..n] + s[n..][..m] == s[..n + m];
      assert s[n..][m..] == s[n + m..];
    }
  }

  lemma FixedRecord(scopes: seq<Field>, values: seq<Field>, s: bytes)
    requires Fixed(scopes) && Fixed(values) && 0 < TemplateSize(scopes) + TemplateSize(values) <= |s|
    ensures var n := TemplateSize(scopes) + TemplateSize(values);
            var r := DecodeRecord(scopes, values, s);
            r.Some? && ValueBytes(r.value.0.scopes) + ValueBytes(r.value.0.values) == s[..n] && r.value.1 == s[n..]
  {
    var a, b := TemplateSize(scopes), TemplateSize(values);
    FixedValues(scopes, s);
    FixedValues(values, s[a..]);
    hide DecodeValues, ValueBytes, TemplateSize;
    Join(s, a, b);
    assert s[a..][b..] == s[a + b..];
  }

  lemma DivStep(n: nat, k: nat)
    requires 0 < k <= n
    ensures n / k == 1 + (n - k) / k && k * (n / k) == k + k * ((n - k) / k) && k * (n / k) <= n
  {
    var q, r := (n - k) / k, (n - k) % k;
    assert n - k == k * q + r;
    assert n == k * (q + 1) + r;
    QuotientUnique(n, k, q + 1, r);
  }

  lemma QuotientUnique(n: nat, k: nat, q: nat, r: nat)
    requires k > 0 && r < k && n == k * q + r
    ensures n / k == q
  {
    SameQuotient(k, n / k, n % k, q, r);
  }

  lemma SameQuotient(k: nat, a: nat, r: nat, b: nat, t: nat)
    requires r < k && t < k && k * a + r == k * b + t
    ensures a == b
  {
    Distributes(k, a, b);
    if a < b {
      AtLeast(k, b - a);
    } else if b < a {
      AtLeast(k, a - b);
    }
  }

  lemma Distributes(k: int, a: int, b: int)
    ensures k * (a - b) == k * a - k * b && k * (b - a) == k * b - k * a
  {
  }

  lemma AtLeast(k: nat, d: nat)
    requires d >= 1
    ensures k * d >= k
  {
  }

  lemma Join(s: bytes, k: nat, m: nat)
    requires k + m <= |s|
    ensures s[..k] + s[k..][..m] == s[..k + m]
  {
  }

  lemma RecordsStep(scopes: seq<Field>, values: seq<Field>, s: bytes, record: DataRecord, rest: bytes)
    requires 0 < TemplateSize(scopes) + TemplateSize(values) <= |s|
             && DecodeRecord(scopes, values, s) == Some((record, rest))
    ensures var d := DecodeRecords(scopes, values, rest);
            && DecodeRecords(scopes, values, s) == ([record] + d.0, d.1)
            && RecordBytes([record] + d.0) == ValueBytes(record.scopes) + ValueBytes(record.values) + RecordBytes(d.0)
  {
    var d := DecodeRecords(scopes, values, rest);
    assert ([record] + d.0)[1..] == d.0;
  }

  lemma NoRecord(scopes: seq<Field>, values: seq<Field>, s: bytes)
    requires |s| < TemplateSize(scopes) + TemplateSize(values)
    ensures DecodeRecords(scopes, values, s) == ([], true) && RecordBytes([]) == s[..0]
  {
  }

  /**
   * A payload of n octets under a template of k fixed octets holds exactly n / k records, which
   * together are its first k * (n / k) octets; the rest is padding.
   */
  lemma {:induction false} FixedRecordCount(scopes: seq<Field>, values: seq<Field>, s: bytes)
    requires Fixed(scopes) && Fixed(values) && TemplateSize(scopes) + TemplateSize(values) > 0
    ensures var k := TemplateSize(scopes) + TemplateSize(values);
            var (rs, ok) := DecodeRecords(scopes, values, s);
            && ok && |rs| == |s| / k
            && 0 <= k * (|s| / k) <= |s| && RecordBytes(rs) == s[..k * (|s| / k)]
    decreases |s|
  {
    hide *;
    var k := TemplateSize(scopes) + TemplateSize(values);
    if |s| >= k {
      FixedRecord(scopes, values, s);
      var (record, rest) := DecodeRecord(scopes, values, s).value;
      RecordsStep(scopes, values, s, record, rest);
      FixedRecordCount(scopes, values, rest);
      DivStep(|s|, k);
      Join(s, k, k * (|rest| / k));
    } else {
      NoRecord(scopes, values, s);
      QuotientUnique(|s|, k, 0, |s|);
    }
  }
}
