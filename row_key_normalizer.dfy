/** `ReplaceCharacterRowKeyNormalizer`: makes a source identifier usable as an
    Azure table row key by replacing every `/` (forbidden in keys) with `-`,
    and maps a row key back by the reverse substitution. */
module RowKeyNormalizer {
  import opened Text

  const Forbidden: char := '/'
  const Substitute: char := '-'

  predicate Lacks(s: string, c: char) {
    forall i :: 0 <= i < |s| ==> s[i] != c
  }

  /** The row key for an identifier: the same string with each `/` turned into `-`. */
  function ToRowKeyValue(originalValue: string): (key: string)
    ensures |key| == |originalValue|
    ensures forall i :: 0 <= i < |key| ==>
      key[i] == (if originalValue[i] == '/' then '-' else originalValue[i])
    ensures Lacks(key, '/')
  {
    ReplaceChar(originalValue, Forbidden, Substitute)
  }

  /** The identifier for a row key: the same string with each `-` turned into `/`. */
  function FromRowKeyValue(rowKey: string): (original: string)
    ensures |original| == |rowKey|
    ensures forall i :: 0 <= i < |original| ==>
      original[i] == (if rowKey[i] == '-' then '/' else rowKey[i])
    ensures Lacks(original, '-')
  {
    ReplaceChar(rowKey, Substitute, Forbidden)
  }

  /** Decoding a key restores the identifier exactly when the identifier had no `-`. */
  lemma FromToRoundTrip(x: string)
    ensures FromRowKeyValue(ToRowKeyValue(x)) == x <==> Lacks(x, '-')
  {
    var y := FromRowKeyValue(ToRowKeyValue(x));
    if Lacks(x, '-') {
      assert forall i :: 0 <= i < |x| ==> y[i] == x[i];
    } else {
      var i :| 0 <= i < |x| && x[i] == '-';
      assert y[i] == '/';
    }
  }

  /** Encoding a decoded key restores the key exactly when the key had no `/`. */
  lemma ToFromRoundTrip(k: string)
    ensures ToRowKeyValue(FromRowKeyValue(k)) == k <==> Lacks(k, '/')
  {
    var y := ToRowKeyValue(FromRowKeyValue(k));
    if Lacks(k, '/') {
      assert forall i :: 0 <= i < |k| ==> y[i] == k[i];
    } else {
      var i :| 0 <= i < |k| && k[i] == '/';
      assert y[i] == '-';
    }
  }

  /** Normalising twice is normalising once. */
  lemma ToRowKeyValueIdempotent(x: string)
    ensures ToRowKeyValue(ToRowKeyValue(x)) == ToRowKeyValue(x)
  {
    var k := ToRowKeyValue(x);
    assert forall i :: 0 <= i < |k| ==> ToRowKeyValue(k)[i] == k[i];
  }

  /** Two identifiers share a row key exactly when they agree up to `/` versus `-`;
      so `"a/b"` and `"a-b"` land on the same key and the later upsert wins. */
  lemma ToRowKeyValueCollides(x: string, y: string)
    ensures ToRowKeyValue(x) == ToRowKeyValue(y) <==>
      |x| == |y| && forall i :: 0 <= i < |x| ==>
        x[i] == y[i] || (x[i] in {'/', '-'} && y[i] in {'/', '-'})
  {
    if ToRowKeyValue(x) == ToRowKeyValue(y) {
      forall i | 0 <= i < |x|
        ensures x[i] == y[i] || (x[i] in {'/', '-'} && y[i] in {'/', '-'})
      {
        assert ToRowKeyValue(x)[i] == ToRowKeyValue(y)[i];
      }
    }
    if |x| == |y| && forall i :: 0 <= i < |x| ==>
        x[i] == y[i] || (x[i] in {'/', '-'} && y[i] in {'/', '-'}) {
      assert forall i :: 0 <= i < |x| ==> ToRowKeyValue(x)[i] == ToRowKeyValue(y)[i];
    }
  }

  lemma NotInjective()
    ensures "a/b" != "a-b" && ToRowKeyValue("a/b") == ToRowKeyValue("a-b")
  {
    ToRowKeyValueCollides("a/b", "a-b");
  }
}
