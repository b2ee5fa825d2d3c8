/** `Ai::Data::SourceCacheKey`: the key under which a chat caches the sources
    fetched for a query. The query is normalised (lower case, symbols to
    spaces, whitespace squished) and the signature is the SHA-256 hex digest of
    the normalised text; the digest is a parameter of the model. */
module SourceCacheKey {
  import opened Text

  datatype CacheKey = CacheKey(queryText: string, normalizedQuery: string, querySignature: string)

  const EmptyQuery: string := "empty-query"

  /** `normalize`. */
  function Normalize(text: string): string {
    Squish(Mask(Downcase(text)))
  }

  /** `call`, with `Digest::SHA256.hexdigest` as `sha256`. */
  function Key(queryText: string, sha256: string -> string): (r: CacheKey)
    ensures r.queryText == Strip(queryText)
    ensures r.normalizedQuery == (if Blank(Normalize(queryText)) then EmptyQuery else Normalize(queryText))
    ensures r.querySignature == sha256(r.normalizedQuery)
  {
    var normalized := Normalize(queryText);
    var normalized' := if Blank(normalized) then EmptyQuery else normalized;
    CacheKey(Strip(queryText), normalized', sha256(normalized'))
  }

  // ---------------------------------------------------------------- properties

  /** The normalised text holds only lower-case letters, digits and spaces,
      and neither starts nor ends with a space. */
  lemma NormalizeChars(text: string)
    ensures var n := Normalize(text);
      forall i :: 0 <= i < |n| ==> IsLower(n[i]) || IsDigit(n[i]) || n[i] == ' '
    ensures var n := Normalize(text); n == [] || (n[0] != ' ' && n[|n| - 1] != ' ')
  {
    var m := Mask(Downcase(text));
    var c := Collapse(m, IsUnicodeSpace);
    CollapseChars(m, IsUnicodeSpace, false);
    StripChars(c);
    var n := Normalize(text);
    forall i | 0 <= i < |n| ensures IsLower(n[i]) || IsDigit(n[i]) || n[i] == ' ' {
      assert n[i] in c;
      var j :| 0 <= j < |c| && c[j] == n[i];
      if c[j] != ' ' {
        assert c[j] in m;
      }
    }
  }

  /** The normalised query is never blank: a query with no letter or digit
      falls back to the literal `empty-query`. */
  lemma KeyNeverBlank(queryText: string, sha256: string -> string)
    ensures !Blank(Key(queryText, sha256).normalizedQuery)
  {
    var k := Key(queryText, sha256);
    if Blank(Normalize(queryText)) {
      EmptyQueryNotBlank(k.normalizedQuery);
    }
  }

  lemma EmptyQueryNotBlank(s: string)
    requires s == EmptyQuery
    ensures !Blank(s)
  {
    assert s[0] == 'e';
  }

  /** A query without any letter or digit uses `empty-query`. */
  lemma SymbolsOnlyIsEmptyQuery(queryText: string, sha256: string -> string)
    requires forall i :: 0 <= i < |queryText| ==> !IsAlnum(queryText[i])
    ensures Key(queryText, sha256).normalizedQuery == EmptyQuery
    ensures Key(queryText, sha256).querySignature == sha256(EmptyQuery)
  {
    var d := Downcase(queryText);
    var m := Mask(d);
    forall i | 0 <= i < |m|
      ensures m[i] == ' ' || IsRegexSpace(m[i])
    {
      NonAlnumMasked(queryText[i]);
    }
    var c := Collapse(m, IsUnicodeSpace);
    CollapseChars(m, IsUnicodeSpace, false);
    StripChars(c);
    var n := Normalize(queryText);
    forall i | 0 <= i < |n| ensures IsUnicodeSpace(n[i]) {
      assert n[i] in c;
      var j :| 0 <= j < |c| && c[j] == n[i];
      if c[j] != ' ' {
        assert c[j] in m;
      }
    }
  }

  /** Only the normalised text decides the signature. */
  lemma SignatureDependsOnNormalized(a: string, b: string, sha256: string -> string)
    requires Normalize(a) == Normalize(b)
    ensures Key(a, sha256).normalizedQuery == Key(b, sha256).normalizedQuery
    ensures Key(a, sha256).querySignature == Key(b, sha256).querySignature
  {
  }

  lemma DowncaseTwice(s: string)
    ensures Downcase(Downcase(s)) == Downcase(s)
  {
    assert forall i :: 0 <= i < |s| ==> Lower(Lower(s[i])) == Lower(s[i]);
  }

  /** Letter case does not matter: "GDP" and "gdp" share a cache entry. */
  lemma CaseInsensitive(a: string, sha256: string -> string)
    ensures Key(Upcase(a), sha256).querySignature == Key(a, sha256).querySignature
    ensures Key(Downcase(a), sha256).querySignature == Key(a, sha256).querySignature
  {
    DowncaseOfUpcase(a);
    DowncaseTwice(a);
    assert Normalize(Upcase(a)) == Normalize(a);
    assert Normalize(Downcase(a)) == Normalize(a);
    SignatureDependsOnNormalized(Upcase(a), a, sha256);
    SignatureDependsOnNormalized(Downcase(a), a, sha256);
  }

  /** Punctuation counts as a space: "GDP, Austria" and "GDP  Austria" share
      a cache entry. */
  lemma PunctuationIsSpace(s: string, i: int, c: char, sha256: string -> string)
    requires 0 <= i < |s| && !IsAlnum(c) && !IsRegexSpace(c)
    ensures Key(s[..i] + [c] + s[i + 1..], sha256).querySignature == Key(s[..i] + [' '] + s[i + 1..], sha256).querySignature
  {
    var a := s[..i] + [c] + s[i + 1..];
    var b := s[..i] + [' '] + s[i + 1..];
    var ma, mb := Mask(Downcase(a)), Mask(Downcase(b));
    forall k | 0 <= k < |a|
      ensures ma[k] == mb[k]
    {
      if k == i {
        assert a[k] == c && b[k] == ' ';
        NonAlnumMasked(c);
      } else {
        assert a[k] == b[k];
      }
    }
    assert ma == mb;
    assert Normalize(a) == Normalize(b);
  }

  /** A character that is not alphanumeric is its own lower case, and the
      mask keeps it only when it is whitespace. */
  lemma NonAlnumMasked(c: char)
    requires !IsAlnum(c)
    ensures Lower(c) == c && !IsLower(c) && !IsDigit(c)
  {
  }
}
