/** When two asset types name the same thing. The upper case of a character is a parameter. */
module AssetTypes {
  /** The characters that Unicode counts as white space. */
  predicate IsSpace(c: char) {
    || '\t' <= c <= '\r' || '\U{2000}' <= c <= '\U{200A}'
    || c in {' ', '\U{85}', '\U{A0}', '\U{1680}', '\U{2028}', '\U{2029}', '\U{202F}', '\U{205F}', '\U{3000}'}
  }

  /** Surrounding white space removed, letters in upper case. */
  function Normal(text: string, upper: char -> char): string {
    if text == "" then ""
    else if IsSpace(text[0]) then Normal(text[1..], upper)
    else if IsSpace(text[|text| - 1]) then Normal(text[..|text| - 1], upper)
    else seq(|text|, i requires 0 <= i < |text| => upper(text[i]))
  }

  predicate IsStock(assetType: string, upper: char -> char) {
    Normal(assetType, upper) in {"STOCK", "A_SHARE", "ASHARE"}
  }

  predicate AssetTypesMatch(a: string, b: string, upper: char -> char) {
    var a, b := Normal(a, upper), Normal(b, upper);
    a == b || (IsStock(a, upper) && IsStock(b, upper))
  }

  /** White space around an asset type does not matter. */
  lemma {:induction false} PaddingIgnored(text: string, c: char, upper: char -> char)
    requires IsSpace(c)
    ensures Normal([c] + text, upper) == Normal(text, upper) == Normal(text + [c], upper)
    decreases |text|
  {
    assert ([c] + text)[1..] == text;
    if text == "" {
      assert text + [c] == [c] && [c][1..] == "";
    } else if IsSpace(text[0]) {
      PaddingIgnored(text[1..], c, upper);
      assert (text + [c])[1..] == text[1..] + [c];
    } else {
      assert (text + [c])[..|text + [c]| - 1] == text;
    }
  }

  /** What matches what: an equivalence in which all names of stocks are one class. */
  lemma MatchingIsAnEquivalence(a: string, b: string, c: string, upper: char -> char)
    ensures AssetTypesMatch(a, a, upper)
    ensures AssetTypesMatch(a, b, upper) <==> AssetTypesMatch(b, a, upper)
    ensures AssetTypesMatch(a, b, upper) && AssetTypesMatch(b, c, upper) ==> AssetTypesMatch(a, c, upper)
  {
  }

  /** Two asset types match exactly if they read the same, or both read as one of the three names of a stock. */
  lemma MatchExactly(a: string, b: string, upper: char -> char)
    requires Normal(Normal(a, upper), upper) == Normal(a, upper) && Normal(Normal(b, upper), upper) == Normal(b, upper)
    ensures var readA, readB := Normal(a, upper), Normal(b, upper);
            AssetTypesMatch(a, b, upper) <==>
              || readA == readB
              || (readA in {"STOCK", "A_SHARE", "ASHARE"} && readB in {"STOCK", "A_SHARE", "ASHARE"})
  {
  }
}
