/** Values shared by every module: absence, failure, and the whitespace both text cores trim. */
module Base {
  datatype Option<+T> = None | Some(value: T)

  datatype Result<+T, +E> = Ok(value: T) | Err(error: E)

  /** The Unicode White_Space property, which is what Rust's `trim` family removes. */
  predicate IsWhite(c: char) {
    || '\t' <= c <= '\r' || c == ' ' || c == '\U{0085}' || c == '\U{00A0}' || c == '\U{1680}'
    || '\U{2000}' <= c <= '\U{200A}' || c == '\U{2028}' || c == '\U{2029}' || c == '\U{202F}'
    || c == '\U{205F}' || c == '\U{3000}'
  }

  /** How much of the first `n` characters is left without their longest suffix of whitespace. */
  function WhiteTail(s: string, n: nat): (r: nat)
    requires n <= |s|
    ensures r <= n && (r > 0 ==> !IsWhite(s[r - 1])) && forall i | r <= i < n :: IsWhite(s[i])
  {
    if n == 0 || !IsWhite(s[n - 1]) then n else WhiteTail(s, n - 1)
  }

  /** `str::trim_end`. */
  function TrimEnd(s: string): string { s[..WhiteTail(s, |s|)] }

  /** Maps that agree key by key are the same map. */
  lemma MapsAgree<K, V>(a: map<K, V>, b: map<K, V>)
    requires forall k :: (k in a <==> k in b) && (k in a ==> a[k] == b[k])
    ensures a == b
  {
  }
}
