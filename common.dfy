/** Shared vocabulary of the request handlers: optional values, results, HTTP errors,
    Python truthiness of optional strings, the "a#b" composite keys of the record store
    and the tenant prefix of an activation code. */
module Common {

  datatype Option<+T> = None | Some(value: T)

  datatype Result<+R, +E> = Success(value: R) | Failure(error: E)

  /** An HTTPException raised by a handler: its status code and its detail text. */
  datatype HttpError = HttpError(status: int, detail: string)

  /** Python truthiness of an optional header or field: None and "" are both false. */
  predicate Truthy(s: Option<string>)
  {
    s.Some? && s.value != ""
  }

  /** The string-concatenated partition key f"{a}#{b}" used by the record store. */
  function CompositeKey(a: string, b: string): (k: string)
    ensures |k| == |a| + 1 + |b|
    ensures k[..|a|] == a && k[|a|] == '#' && k[|a| + 1..] == b
  {
    a + "#" + b
  }

  /** For one fixed tenant the composite key determines its second component. */
  lemma CompositeKeyInjective(a: string, b1: string, b2: string)
    requires CompositeKey(a, b1) == CompositeKey(a, b2)
    ensures b1 == b2
  {
    assert b1 == CompositeKey(a, b1)[|a| + 1..];
  }

  /** `code.split('-')[0]`: the text before the first '-', or all of `code` when it has none.
      Python's split always yields at least one part, so this never fails. */
  function TenantOf(code: string): (t: string)
    ensures t <= code
    ensures '-' !in t
    ensures |t| < |code| ==> code[|t|] == '-'
  {
    if code == [] then []
    else if code[0] == '-' then []
    else [code[0]] + TenantOf(code[1..])
  }

  /** The three properties in TenantOf's contract pin its result down: any prefix free of '-'
      that ends at a '-' or at the end of the code is the tenant. */
  lemma {:induction false} TenantOfUnique(code: string, t: string)
    requires t <= code && '-' !in t
    requires |t| < |code| ==> code[|t|] == '-'
    ensures TenantOf(code) == t
  {
    if code != [] && code[0] != '-' {
      assert t != [];
      assert t[0] == code[0];
      TenantOfUnique(code[1..], t[1..]);
      assert [t[0]] + t[1..] == t;
    }
  }

  /** A code written "TENANT-SUFFIX" with no '-' in TENANT yields TENANT, whatever SUFFIX holds. */
  lemma {:induction false} TenantOfSplit(tenant: string, suffix: string)
    requires '-' !in tenant
    ensures TenantOf(tenant + "-" + suffix) == tenant
  {
    var code := tenant + "-" + suffix;
    assert code[|tenant|] == '-';
    assert tenant <= code;
    TenantOfUnique(code, tenant);
  }
}
