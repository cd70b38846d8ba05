/**
 * The free-text filter message of the `set_filter` handler:
 * `<keywords> [<region> [<max price>]]`, separated by whitespace.
 */
module FilterParse {
  import opened Wrappers
  import opened PyText

  /** What one accepted message asks for. The price is a whole number of roubles. */
  datatype FilterRequest = FilterRequest(keywords: string, region: Option<string>, maxPrice: Option<nat>)

  /** `None` when the text holds no token (the handler answers with a prompt and stores nothing);
      otherwise the first token as keywords, the second (if any) as region and the third as
      price when it consists of digits only. Tokens after the third are ignored. */
  function ParseFilter(text: string): (r: Option<FilterRequest>)
    ensures r.None? <==> AllSpace(text)
    ensures r.Some? ==> |Tokens(text)| >= 1 && r.value.keywords == Tokens(text)[0]
    ensures r.Some? ==> r.value.region == if |Tokens(text)| >= 2 then Some(Tokens(text)[1]) else None
    ensures r.Some? ==> (r.value.maxPrice.Some? <==> |Tokens(text)| >= 3 && IsDigits(Tokens(text)[2]))
    ensures r.Some? && r.value.maxPrice.Some? ==> r.value.maxPrice.value == DigitsValue(Tokens(text)[2])
  {
    TokensOfStrip(text);
    TokensEmptyIffAllSpace(text);
    var parts := Tokens(Strip(text));
    if |parts| < 1 then None
    else
      var keywords := parts[0];
      var region := if |parts| > 1 then Some(parts[1]) else None;
      var maxPrice := if |parts| > 2 && IsDigits(parts[2]) then Some(DigitsValue(parts[2])) else None;
      Some(FilterRequest(keywords, region, maxPrice))
  }

  /** The accepted fields never contain whitespace and are never empty. */
  lemma ParsedFieldsAreTokens(text: string)
    requires ParseFilter(text).Some?
    ensures ParseFilter(text).value.keywords != [] && NoSpace(ParseFilter(text).value.keywords)
    ensures ParseFilter(text).value.region.Some? ==>
              ParseFilter(text).value.region.value != [] && NoSpace(ParseFilter(text).value.region.value)
  {
    var ts := Tokens(text);
    assert ts[0] != [] && NoSpace(ts[0]);
    if |ts| >= 2 {
      assert ts[1] != [] && NoSpace(ts[1]);
    }
  }

  /** Only the first three tokens matter: two messages whose first three tokens agree
      give the same filter, whatever follows. */
  lemma ExtraTokensIgnored(a: string, b: string)
    requires |Tokens(a)| >= 3 && |Tokens(b)| >= 3
    requires Tokens(a)[..3] == Tokens(b)[..3]
    ensures ParseFilter(a) == ParseFilter(b)
  {
    assert Tokens(a)[0] == Tokens(a)[..3][0] && Tokens(b)[0] == Tokens(b)[..3][0];
    assert Tokens(a)[1] == Tokens(a)[..3][1] && Tokens(b)[1] == Tokens(b)[..3][1];
    assert Tokens(a)[2] == Tokens(a)[..3][2] && Tokens(b)[2] == Tokens(b)[..3][2];
    TokensEmptyIffAllSpace(a);
    TokensEmptyIffAllSpace(b);
  }

  /** The format the bot advertises, `keywords region price` written with single spaces
      (followed by anything else), is read back exactly. */
  lemma {:induction false} ParseAdvertisedFormat(keywords: string, region: string, price: nat, rest: seq<string>)
    requires keywords != [] && NoSpace(keywords) && region != [] && NoSpace(region)
    requires forall k :: 0 <= k < |rest| ==> rest[k] != [] && NoSpace(rest[k])
    ensures ParseFilter(Join([keywords, region, ShowNat(price)] + rest))
            == Some(FilterRequest(keywords, Some(region), Some(price)))
  {
    var p := ShowNat(price);
    assert NoSpace(p) by {
      forall k | 0 <= k < |p| ensures !IsSpace(p[k]) {
        assert '0' <= p[k] <= '9';
      }
    }
    var ts := [keywords, region, p] + rest;
    assert ts[0] == keywords && ts[1] == region && ts[2] == p;
    var text := Join(ts);
    TokensOfJoin(ts);
    TokensEmptyIffAllSpace(text);
    DigitsValueOfShowNat(price);
    var r := ParseFilter(text);
    assert r.Some?;
    assert r.value.keywords == keywords && r.value.region == Some(region);
    assert r.value.maxPrice == Some(price);
  }

  /** A keywords-only message has neither region nor price. */
  lemma {:induction false} ParseKeywordsOnly(keywords: string)
    requires keywords != [] && NoSpace(keywords)
    ensures ParseFilter(keywords) == Some(FilterRequest(keywords, None, None))
  {
    TokensOfJoin([keywords]);
  }

  /** A third token that is not all digits (a sign, a decimal point, an exponent) gives no price,
      but the keywords and the region are still kept. */
  lemma {:induction false} ParseRejectsNonDigitPrice(keywords: string, region: string, price: string)
    requires keywords != [] && NoSpace(keywords) && region != [] && NoSpace(region)
    requires price != [] && NoSpace(price) && !IsDigits(price)
    ensures ParseFilter(Join([keywords, region, price])) == Some(FilterRequest(keywords, Some(region), None))
  {
    TokensOfJoin([keywords, region, price]);
  }

  lemma NonDigitPriceExamples()
    ensures !IsDigits("1.5e6") && !IsDigits("-5") && !IsDigits("") && IsDigits("1500000")
  {
    assert "1.5e6"[1] == '.';
    assert "-5"[0] == '-';
  }
}
