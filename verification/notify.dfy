/**
 * One tender item as the search API returns it, the "is it new?" rule of the check cycle
 * and the text of the notification.
 */
module Notify {
  import opened Wrappers

  /** A search result. The optional fields hold the item's value as Python renders it and are
      `None` when the key is absent. `publicationDate` is the raw date string (`""` when the
      key is absent, null or empty); `published` is the instant that string denotes, in
      microseconds on the same clock as the filters' `last_checked`. */
  datatype Tender = Tender(
    title: Option<string>,
    initialPrice: Option<string>,
    region: Option<string>,
    url: Option<string>,
    publicationDate: string,
    published: int)

  /** A tender is news for a filter when it has a publication date, the filter has a
      watermark, and the tender was published strictly after that watermark. */
  predicate IsNew(lastChecked: Option<int>, t: Tender) {
    t.publicationDate != "" && lastChecked.Some? && t.published > lastChecked.value
  }

  /** The items of one search reply that trigger a notification, in reply order. */
  function Fresh(lastChecked: Option<int>, ts: seq<Tender>): (r: seq<Tender>)
    ensures |r| <= |ts|
    ensures forall k :: 0 <= k < |r| ==> IsNew(lastChecked, r[k])
  {
    if ts == [] then []
    else
      var n := |ts| - 1;
      Fresh(lastChecked, ts[..n]) + (if IsNew(lastChecked, ts[n]) then [ts[n]] else [])
  }

  /** Selection keeps the reply order: selecting from a concatenation is concatenating the selections. */
  lemma {:induction false} FreshAppend(lastChecked: Option<int>, a: seq<Tender>, b: seq<Tender>)
    ensures Fresh(lastChecked, a + b) == Fresh(lastChecked, a) + Fresh(lastChecked, b)
    decreases |b|
  {
    if b == [] {
      assert a + b == a;
    } else {
      var n := |b| - 1;
      assert (a + b)[..|a| + n] == a + b[..n];
      assert (a + b)[|a| + n] == b[n];
      FreshAppend(lastChecked, a, b[..n]);
    }
  }

  /** Each occurrence of a new item is selected exactly once, and an item that is not new never is. */
  lemma {:induction false} FreshCount(lastChecked: Option<int>, ts: seq<Tender>, t: Tender)
    ensures multiset(Fresh(lastChecked, ts))[t] == if IsNew(lastChecked, t) then multiset(ts)[t] else 0
    decreases |ts|
  {
    if ts != [] {
      var n := |ts| - 1;
      FreshCount(lastChecked, ts[..n], t);
      assert ts == ts[..n] + [ts[n]];
      assert multiset(ts) == multiset(ts[..n]) + multiset{ts[n]};
    }
  }

  /** A filter without a watermark is never notified. */
  lemma {:induction false} FreshWithoutWatermark(ts: seq<Tender>)
    ensures Fresh(None, ts) == []
    decreases |ts|
  {
    if ts != [] {
      FreshWithoutWatermark(ts[..|ts| - 1]);
    }
  }

  /** Nothing published at or before the watermark is selected. */
  lemma {:induction false} FreshEmptyUpToWatermark(w: int, ts: seq<Tender>)
    requires forall k :: 0 <= k < |ts| ==> ts[k].published <= w
    ensures Fresh(Some(w), ts) == []
    decreases |ts|
  {
    if ts != [] {
      FreshEmptyUpToWatermark(w, ts[..|ts| - 1]);
    }
  }

  /** Python's `s[:10]`: the first ten characters, or all of a shorter string. */
  function DatePrefix(s: string): (r: string)
    ensures |r| == if |s| < 10 then |s| else 10
    ensures r == s[..|r|]
  {
    if |s| <= 10 then s else s[..10]
  }

  const DefaultTitle: string := "Без названия"
  const Dash: string := "—"
  const DefaultUrl: string := "https://zakupki.gov.ru"

  // ---------------------------------------------------------------------------
  // The lines of the notification

  /** `s.split("\n")`: the pieces between line breaks; there is always at least one. */
  function SplitLines(s: string): (ls: seq<string>)
    ensures |ls| >= 1
  {
    if s == [] then [[]]
    else
      var rest := SplitLines(s[1..]);
      if s[0] == '\n' then [[]] + rest else [[s[0]] + rest[0]] + rest[1..]
  }

  /** `"\n".join(ls)`. */
  function JoinLines(ls: seq<string>): string
    requires |ls| >= 1
  {
    if |ls| == 1 then ls[0] else ls[0] + "\n" + JoinLines(ls[1..])
  }

  predicate OneLine(s: string) {
    forall k :: 0 <= k < |s| ==> s[k] != '\n'
  }

  /** A line without a break in front of anything extends the first piece of the split. */
  lemma {:induction false} SplitLinesAfterLine(w: string, rest: string)
    requires OneLine(w)
    ensures SplitLines(w + rest) == [w + SplitLines(rest)[0]] + SplitLines(rest)[1..]
    decreases |w|
  {
    if w != [] {
      assert (w + rest)[1..] == w[1..] + rest;
      SplitLinesAfterLine(w[1..], rest);
      assert [w[0]] + (w[1..] + SplitLines(rest)[0]) == w + SplitLines(rest)[0];
    } else {
      var r := SplitLines(rest);
      assert w + rest == rest;
      assert w + r[0] == r[0];
      assert r == [r[0]] + r[1..];
    }
  }

  /** Splitting lines joined by line breaks gives the lines back. */
  lemma {:induction false} SplitOfJoinLines(ls: seq<string>)
    requires |ls| >= 1 && forall k :: 0 <= k < |ls| ==> OneLine(ls[k])
    ensures SplitLines(JoinLines(ls)) == ls
    decreases |ls|
  {
    if |ls| == 1 {
      SplitLinesAfterLine(ls[0], []);
      assert ls[0] + [] == ls[0];
    } else {
      var j := JoinLines(ls[1..]);
      SplitOfJoinLines(ls[1..]);
      assert ls[0] + "\n" + j == ls[0] + ("\n" + j);
      SplitLinesAfterLine(ls[0], "\n" + j);
      assert ("\n" + j)[1..] == j;
      assert ls[0] + [] == ls[0];
    }
  }

  /** The eight lines of the template for one tender. */
  function TemplateLines(t: Tender): seq<string> {
    [ "",
      "НОВЫЙ ТЕНДЕР!",
      "*" + t.title.GetOr(DefaultTitle) + "*",
      "Цена: " + t.initialPrice.GetOr(Dash) + " ₽",
      "Регион: " + t.region.GetOr(Dash),
      "Опубликовано: " + DatePrefix(t.publicationDate),
      "[Открыть в ЕИС](" + t.url.GetOr(DefaultUrl) + ")",
      "                " ]
  }

  /** Whether the values shown in the message are free of line breaks. */
  predicate ShownOnOneLine(t: Tender) {
    OneLine(t.title.GetOr(DefaultTitle)) && OneLine(t.initialPrice.GetOr(Dash))
    && OneLine(t.region.GetOr(Dash)) && OneLine(t.url.GetOr(DefaultUrl)) && OneLine(t.publicationDate)
  }

  lemma {:induction false} OneLineAppend(a: string, b: string)
    requires OneLine(a) && OneLine(b)
    ensures OneLine(a + b)
  {
    forall k | 0 <= k < |a + b| ensures (a + b)[k] != '\n' {
      if k < |a| { assert (a + b)[k] == a[k]; } else { assert (a + b)[k] == b[k - |a|]; }
    }
  }

  /** The Markdown text of the notification for one tender: the template's lines joined by
      line breaks. */
  function Message(t: Tender): string {
    JoinLines(TemplateLines(t))
  }

  /** When the values it shows hold no line break, the notification splits into the template's
      eight lines: an empty line, the header, the title in bold (default "Без названия"), the
      price and the region (default "—"), the first ten characters of the date, the link
      (default https://zakupki.gov.ru) and the indented closing line. */
  lemma MessageLines(t: Tender)
    requires ShownOnOneLine(t)
    ensures SplitLines(Message(t)) == TemplateLines(t)
  {
    TemplateLinesAreLines(t);
    SplitOfJoinLines(TemplateLines(t));
  }

  lemma TemplateLinesAreLines(t: Tender)
    requires ShownOnOneLine(t)
    ensures forall k :: 0 <= k < |TemplateLines(t)| ==> OneLine(TemplateLines(t)[k])
  {
    var title, price, region, url := t.title.GetOr(DefaultTitle), t.initialPrice.GetOr(Dash),
      t.region.GetOr(Dash), t.url.GetOr(DefaultUrl);
    var date := DatePrefix(t.publicationDate);
    assert OneLine(date) by {
      forall k | 0 <= k < |date| ensures date[k] != '\n' {
        assert date[k] == t.publicationDate[k];
      }
    }
    OneLineAppend("*", title);
    OneLineAppend("*" + title, "*");
    OneLineAppend("Цена: ", price);
    OneLineAppend("Цена: " + price, " ₽");
    OneLineAppend("Регион: ", region);
    OneLineAppend("Опубликовано: ", date);
    OneLineAppend("[Открыть в ЕИС](", url);
    OneLineAppend("[Открыть в ЕИС](" + url, ")");
  }
}
