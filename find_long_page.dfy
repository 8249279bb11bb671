/**
 * find_long_page.py: pick the page with the most tokens, quote the bottom part
 * of it that the upward scan takes before the first line that does not fit the
 * token budget, ask the model for the topics of
 * that conversation, and lay out a page titled "🤖": four header lines, then
 * six lines per topic in the order of their line index.
 */
module FindLongPage {
  import opened Strings
  import opened Scrapbox

  /** The token budget of the quoted conversation. */
  const ConversationBudget: int := 4000

  // ----- take_bottom -----

  /** `lines[k] + "\n"` for every line from `k` to the end, in order: what `ret` holds after the lines from `k` on were taken. */
  function Bottom(lines: seq<string>, k: nat): string
    decreases |lines| - k
  {
    if k >= |lines| then "" else lines[k] + "\n" + Bottom(lines, k + 1)
  }

  /**
   * `k` is where the bottom-up scan stops: every suffix from `k` on fits `rest`,
   * and either all lines were taken or adding line `k - 1` would exceed `rest`.
   */
  predicate BottomCut(lines: seq<string>, rest: int, size: string -> nat, k: nat)
  {
    && k <= |lines|
    && (forall j :: k <= j < |lines| ==> size(Bottom(lines, j)) <= rest)
    && (k == 0 || size(Bottom(lines, k - 1)) > rest)
  }

  /**
   * `take_bottom`: walks the lines from the last to the first, prepending each
   * with a newline while the whole still fits `rest`, and stops at the first that
   * does not. The ghost `k` is the first line taken.
   */
  method TakeBottom(lines: seq<string>, rest: int, size: string -> nat) returns (ret: string, ghost k: nat)
    ensures BottomCut(lines, rest, size, k)
    ensures ret == Bottom(lines, k)
    ensures ret != "" ==> size(ret) <= rest
  {
    ret := "";
    k := |lines|;
    var i := |lines|;
    while i > 0
      invariant 0 <= i <= |lines| && k == i
      invariant ret == Bottom(lines, i)
      invariant forall j :: i <= j < |lines| ==> size(Bottom(lines, j)) <= rest
    {
      var line := lines[i - 1];
      var s := size(line + "\n" + ret);
      if s > rest {
        break;
      }
      ret := line + "\n" + ret;
      i := i - 1;
      k := i;
    }
  }

  /** The stopping point is determined by the lines and the budget: no line above it is tried after a line fails. */
  lemma BottomCutUnique(lines: seq<string>, rest: int, size: string -> nat, k1: nat, k2: nat)
    requires BottomCut(lines, rest, size, k1) && BottomCut(lines, rest, size, k2)
    ensures k1 == k2
  {

  }

  /** When the last line alone, with its newline, exceeds the budget, nothing is taken. */
  lemma LastLineTooLong(lines: seq<string>, rest: int, size: string -> nat, k: nat)
    requires |lines| > 0 && size(lines[|lines| - 1] + "\n") > rest
    requires BottomCut(lines, rest, size, k)
    ensures k == |lines| && Bottom(lines, k) == ""
  {
    var n := |lines| - 1;
    assert Bottom(lines, n) == lines[n] + "\n" + "";
    assert lines[n] + "\n" + "" == lines[n] + "\n";
  }

  /** A non-empty bottom is the "\n"-join of the suffix from `k`, plus a final newline. */
  lemma {:induction false} BottomIsJoin(lines: seq<string>, k: nat)
    requires k < |lines|
    ensures Bottom(lines, k) == Join(lines[k..], "\n") + "\n"
    decreases |lines| - k
  {
    if k + 1 == |lines| {
      assert lines[k..] == [lines[k]];
      assert Bottom(lines, k) == lines[k] + "\n" + "";
    } else {
      BottomIsJoin(lines, k + 1);
      assert lines[k..][1..] == lines[k + 1..];
      assert Join(lines[k..], "\n") == lines[k] + "\n" + Join(lines[k + 1..], "\n");
    }
  }

  /**
   * The quoted conversation splits back into the suffix of the lines that was
   * taken, followed by the empty part after the final newline.
   */
  lemma BottomReadsBack(lines: seq<string>, k: nat)
    requires k < |lines|
    requires forall i :: 0 <= i < |lines| ==> '\n' !in lines[i]
    ensures Split(Bottom(lines, k)) == lines[k..] + [""]
  {
    BottomIsJoin(lines, k);
    JoinAppend(lines[k..], [""], "\n");
    assert Join(lines[k..], "\n") + "\n" + "" == Join(lines[k..], "\n") + "\n";
    SplitJoin(lines[k..] + [""]);
  }

  // ----- the page ranking -----

  /** The tuple `(size, title, body)` the script builds for every page. */
  datatype Rank = Rank(size: nat, title: string, body: string)

  function RankOf(p: Page, size: string -> nat): Rank
  {
    var body := Join(p.lines, "\n");
    Rank(size(body), p.title, body)
  }

  /** `a < b` on those tuples: by size, then title, then body. */
  predicate RankLess(a: Rank, b: Rank)
  {
    a.size < b.size || (a.size == b.size && (Less(a.title, b.title) || (a.title == b.title && Less(a.body, b.body))))
  }

  lemma RankLessIrreflexive(a: Rank)
    ensures !RankLess(a, a)
  {
    LessIrreflexive(a.title);
    LessIrreflexive(a.body);
  }

  lemma RankLessTransitive(a: Rank, b: Rank, c: Rank)
    requires RankLess(a, b) && RankLess(b, c)
    ensures RankLess(a, c)
  {
    if a.size == b.size == c.size {
      if Less(a.title, b.title) && Less(b.title, c.title) {
        LessTransitive(a.title, b.title, c.title);
      } else if a.title == b.title == c.title {
        LessTransitive(a.body, b.body, c.body);
      }
    }
  }

  lemma RankLessTotal(a: Rank, b: Rank)
    ensures a == b || RankLess(a, b) || RankLess(b, a)
  {
    LessTotal(a.title, b.title);
    LessTotal(a.body, b.body);
  }

  /** `rank` is what `buf.sort(reverse=True)` puts at `buf[0]`: a page's tuple that no page's tuple exceeds. */
  ghost predicate IsLongest(pages: seq<Page>, size: string -> nat, rank: Rank)
  {
    && (exists i :: 0 <= i < |pages| && RankOf(pages[i], size) == rank)
    && (forall i :: 0 <= i < |pages| ==> !RankLess(rank, RankOf(pages[i], size)))
  }

  /**
   * Builds the `(size, title, body)` tuple of every page and returns the greatest,
   * which is the first element after the descending sort. An export without pages
   * fails as `buf[0]` does.
   */
  method LongestPage(pages: seq<Page>, size: string -> nat) returns (r: Result<Rank>)
    ensures r.Err? <==> |pages| == 0
    ensures r.Err? ==> r.error == NoPages
    ensures r.Ok? ==> IsLongest(pages, size, r.value)
    ensures r.Ok? ==> forall i :: 0 <= i < |pages| ==> size(Join(pages[i].lines, "\n")) <= r.value.size
  {
    var buf: seq<Rank> := [];
    for k := 0 to |pages|
      invariant buf == seq(k, i requires 0 <= i < k => RankOf(pages[i], size))
    {
      var body := Join(pages[k].lines, "\n");
      var s := size(body);
      buf := buf + [Rank(s, pages[k].title, body)];
    }
    if |buf| == 0 {
      return Err(NoPages);
    }
    var top := buf[0];
    var w := 0;
    RankLessIrreflexive(top);
    for j := 1 to |buf|
      invariant 0 <= w < j && top == buf[w]
      invariant forall m :: 0 <= m < j ==> !RankLess(top, buf[m])
    {
      if RankLess(top, buf[j]) {
        forall m | 0 <= m < j
          ensures !RankLess(buf[j], buf[m])
        {
          if RankLess(buf[j], buf[m]) {
            RankLessTransitive(top, buf[j], buf[m]);
          }
        }
        RankLessIrreflexive(buf[j]);
        top := buf[j];
        w := j;
      }
    }
    assert forall i :: 0 <= i < |pages| ==> buf[i] == RankOf(pages[i], size);
    r := Ok(top);
  }

  /** The longest page is unique: two tuples that both qualify are the same tuple. */
  lemma LongestUnique(pages: seq<Page>, size: string -> nat, a: Rank, b: Rank)
    requires IsLongest(pages, size, a) && IsLongest(pages, size, b)
    ensures a == b
  {
    var i :| 0 <= i < |pages| && RankOf(pages[i], size) == a;
    var j :| 0 <= j < |pages| && RankOf(pages[j], size) == b;
    RankLessTotal(a, b);
  }

  // ----- the topics the model reports -----

  /** One object of the model's JSON list; `None` is a missing key. */
  datatype Item = Item(topic: Option<string>, summary: Option<string>, startline: Option<string>,
                       endline: Option<string>, index: Option<int>)

  /** What `json.loads` makes of the reply: a list of objects, or anything the loop cannot use. */
  datatype Parsed = Items(items: seq<Item>) | Unparseable

  /** The sort key `x["index"]` (only used once every item has one). */
  function Key(it: Item): int
  {
    if it.index.Some? then it.index.value else 0
  }

  /** Inserts `x` after every leading element whose key is at most `x`'s. */
  function Insert(s: seq<Item>, x: Item): seq<Item>
  {
    if |s| == 0 then [x]
    else if Key(x) < Key(s[0]) then [x] + s
    else [s[0]] + Insert(s[1..], x)
  }

  /** `sorted(items, key=lambda x: x["index"])`: a stable sort by key, here as insertion in input order. */
  function SortByIndex(items: seq<Item>): seq<Item>
  {
    if |items| == 0 then [] else Insert(SortByIndex(items[..|items| - 1]), items[|items| - 1])
  }

  predicate SortedByKey(s: seq<Item>)
  {
    forall i, j :: 0 <= i < j < |s| ==> Key(s[i]) <= Key(s[j])
  }

  /** The items with key `v`, in order. */
  function WithKey(s: seq<Item>, v: int): seq<Item>
  {
    if |s| == 0 then [] else (if Key(s[0]) == v then [s[0]] else []) + WithKey(s[1..], v)
  }

  lemma {:induction false} InsertPermutes(s: seq<Item>, x: Item)
    ensures multiset(Insert(s, x)) == multiset(s) + multiset{x}
    ensures |Insert(s, x)| == |s| + 1
  {
    if |s| > 0 && Key(s[0]) <= Key(x) {
      InsertPermutes(s[1..], x);
      assert s == [s[0]] + s[1..];
    }
  }

  /** Inserting keeps a lower bound that the list and the new item respect. */
  lemma {:induction false} InsertLowerBound(s: seq<Item>, x: Item, b: int)
    requires forall i :: 0 <= i < |s| ==> b <= Key(s[i])
    requires b <= Key(x)
    ensures forall i :: 0 <= i < |Insert(s, x)| ==> b <= Key(Insert(s, x)[i])
  {
    if |s| > 0 && Key(s[0]) <= Key(x) {
      InsertLowerBound(s[1..], x, b);
    }
  }

  lemma {:induction false} InsertSorted(s: seq<Item>, x: Item)
    requires SortedByKey(s)
    ensures SortedByKey(Insert(s, x))
  {
    if |s| > 0 && Key(s[0]) <= Key(x) {
      var tail := Insert(s[1..], x);
      InsertSorted(s[1..], x);
      InsertLowerBound(s[1..], x, Key(s[0]));
      assert Insert(s, x) == [s[0]] + tail;
    }
  }

  lemma {:induction false} WithKeyAppend(a: seq<Item>, b: seq<Item>, v: int)
    ensures WithKey(a + b, v) == WithKey(a, v) + WithKey(b, v)
  {
    if |a| > 0 {
      WithKeyAppend(a[1..], b, v);
      assert (a + b)[1..] == a[1..] + b;
    } else {
      assert a + b == b;
    }
  }

  /** Every key of a sorted list is at least its first key, so a smaller key selects nothing. */
  lemma {:induction false} WithSmallerKey(s: seq<Item>, v: int)
    requires SortedByKey(s) && |s| > 0 && v < Key(s[0])
    ensures WithKey(s, v) == []
  {
    if |s| > 1 {
      WithSmallerKey(s[1..], v);
    }
  }

  lemma {:induction false} InsertWithKey(s: seq<Item>, x: Item, v: int)
    requires SortedByKey(s)
    ensures WithKey(Insert(s, x), v) == WithKey(s, v) + (if Key(x) == v then [x] else [])
  {
    if |s| == 0 {
    } else if Key(x) < Key(s[0]) {
      assert ([x] + s)[1..] == s;
      if Key(x) == v {
        WithSmallerKey(s, v);
      }
    } else {
      InsertWithKey(s[1..], x, v);
      assert ([s[0]] + Insert(s[1..], x))[1..] == Insert(s[1..], x);
    }
  }

  /** The sort orders by key, keeps every item, and keeps the input order among items with equal keys. */
  lemma {:induction false} SortByIndexSpec(items: seq<Item>)
    ensures SortedByKey(SortByIndex(items))
    ensures multiset(SortByIndex(items)) == multiset(items)
    ensures forall v :: WithKey(SortByIndex(items), v) == WithKey(items, v)
  {
    if |items| > 0 {
      var init, last := items[..|items| - 1], items[|items| - 1];
      SortByIndexSpec(init);
      InsertSorted(SortByIndex(init), last);
      InsertPermutes(SortByIndex(init), last);
      assert items == init + [last];
      forall v
        ensures WithKey(SortByIndex(items), v) == WithKey(items, v)
      {
        InsertWithKey(SortByIndex(init), last, v);
        WithKeyAppend(init, [last], v);
      }
    }
  }

  /** An item with every key present. */
  predicate Complete(it: Item)
  {
    it.topic.Some? && it.summary.Some? && it.startline.Some? && it.endline.Some?
  }

  /**
   * The lines the loop appends for one item: topic, summary with the cat icon,
   * the quoted first line, an ellipsis, the quoted last line and an empty line.
   * A missing key raises in the middle, and the lines appended before it stay.
   */
  function ItemLines(it: Item): (r: seq<string>)
    ensures Complete(it) <==> |r| == 6
    ensures |r| <= 6
  {
    if it.topic.None? then []
    else if it.summary.None? then [it.topic.value]
    else
      var head := [it.topic.value, it.summary.value + "[neko.icon]"];
      if it.startline.None? then head
      else
        var quoted := head + ["> " + it.startline.value, "> ..."];
        if it.endline.None? then quoted
        else quoted + ["> " + it.endline.value, ""]
  }

  /** The lines of the items in order, up to and including the partial lines of the first incomplete item. */
  function ItemsLines(items: seq<Item>): seq<string>
  {
    if |items| == 0 then []
    else if !Complete(items[0]) then ItemLines(items[0])
    else ItemLines(items[0]) + ItemsLines(items[1..])
  }

  /** With every key present, item `i` occupies lines `6 * i` to `6 * i + 5`. */
  lemma {:induction false} ItemsLayout(items: seq<Item>, i: nat)
    requires forall j :: 0 <= j < |items| ==> Complete(items[j])
    requires i < |items|
    ensures |ItemsLines(items)| == 6 * |items|
    ensures ItemsLines(items)[6 * i..6 * i + 6] == ItemLines(items[i])
  {
    if i == 0 {
      if |items| > 1 {
        ItemsLayout(items[1..], 0);
      }
    } else {
      ItemsLayout(items[1..], i - 1);
      assert items[1..][i - 1] == items[i];
      var head, rest := ItemLines(items[0]), ItemsLines(items[1..]);
      assert ItemsLines(items) == head + rest;
      var lo := 6 * (i - 1);
      assert 6 * i == |head| + lo;
      SliceAfter(head, rest, lo, lo + 6);
    }
  }

  /** A slice that lies after the first part of a concatenation is a slice of the second part. */
  lemma SliceAfter<T>(a: seq<T>, b: seq<T>, lo: nat, hi: nat)
    requires lo <= hi <= |b|
    ensures (a + b)[|a| + lo..|a| + hi] == b[lo..hi]
  {
    assert forall x :: 0 <= x < hi - lo ==> (a + b)[|a| + lo..|a| + hi][x] == b[lo..hi][x];
  }

  /** The message lines the topics contribute: none when the reply does not parse or an item has no index. */
  function MessageBody(parsed: Parsed): seq<string>
  {
    match parsed
    case Unparseable => []
    case Items(items) =>
      if exists i :: 0 <= i < |items| && items[i].index.None? then []
      else ItemsLines(SortByIndex(items))
  }

  /** The topic loop over the sorted items; an exception ends it with the lines appended so far. */
  method EmitItems(message: seq<string>, sorted: seq<Item>) returns (out: seq<string>)
    ensures out == message + ItemsLines(sorted)
  {
    out := message;
    for i := 0 to |sorted|
      invariant message + ItemsLines(sorted) == out + ItemsLines(sorted[i..])
    {
      var item := sorted[i];
      assert sorted[i..][1..] == sorted[i + 1..];
      if item.topic.None? {
        return;
      }
      out := out + [item.topic.value];
      if item.summary.None? {
        return;
      }
      out := out + [item.summary.value + "[neko.icon]"];
      if item.startline.None? {
        return;
      }
      out := out + ["> " + item.startline.value];
      out := out + ["> ..."];
      if item.endline.None? {
        return;
      }
      out := out + ["> " + item.endline.value];
      out := out + [""];
    }
    assert sorted[|sorted|..] == [];
  }

  // ----- the page -----

  /** What `call_gpt` returns: `["GPT Skipped"]` under `--skip-gpt`, `[]` when the call raises, else the reply's lines. */
  datatype GptReply = Skipped | CallFailed | Replied(text: string)

  function ReplyLines(reply: GptReply): seq<string>
  {
    match reply
    case Skipped => ["GPT Skipped"]
    case CallFailed => []
    case Replied(text) => Split(text)
  }

  /** The four header lines: the marker, the overwrite notice, the longest page with its size, an empty line. */
  function Header(title: string, size: nat): seq<string>
  {
    ["🤖", "このページは毎日自動生成されて上書きされます。",
     "最も長いページ: " + title + " (" + NatToString(size) + " tokens)", ""]
  }

  /** The prompt with its single placeholder `{conversation}`. */
  datatype ConversationPrompt = ConversationPrompt(head: string, tail: string)
  {
    function Render(conversation: string): string
    {
      head + conversation + tail
    }
  }

  /**
   * `main`: rank the pages, quote the bottom of the longest within 4000 tokens,
   * call the model (`gpt`), parse its lines (`decode` stands for `json.loads`) and
   * lay out the single page titled "🤖". `prompt` is the text sent to the model;
   * the ghost results name the chosen page's tuple and the first quoted line.
   */
  method Summarize(pages: seq<Page>, size: string -> nat, template: ConversationPrompt,
                   gpt: string -> GptReply, decode: string -> Parsed)
    returns (r: Result<seq<NewPage>>, prompt: string, ghost longest: Rank, ghost k: nat)
    ensures r.Err? <==> |pages| == 0
    ensures r.Err? ==> r.error == NoPages
    ensures r.Ok? ==>
      && IsLongest(pages, size, longest)
      && BottomCut(Split(longest.body), ConversationBudget, size, k)
      && prompt == template.Render(Bottom(Split(longest.body), k))
      && r.value == [NewPage([Robot], Header(longest.title, longest.size) +
                                      MessageBody(decode(Join(ReplyLines(gpt(prompt)), "\n"))))]
  {
    longest, k, prompt := Rank(0, "", ""), 0, "";
    var ranked := LongestPage(pages, size);
    if ranked.Err? {
      return Err(ranked.error), prompt, longest, k;
    }
    longest := ranked.value;
    var body := Split(ranked.value.body);
    var bottom;
    bottom, k := TakeBottom(body, ConversationBudget, size);
    prompt := template.Render(bottom);

    var message := Header(ranked.value.title, ranked.value.size);
    var ret := ReplyLines(gpt(prompt));
    var parsed := decode(Join(ret, "\n"));
    if parsed.Items? && forall i :: 0 <= i < |parsed.items| ==> parsed.items[i].index.Some? {
      message := EmitItems(message, SortByIndex(parsed.items));
    } else {
      assert MessageBody(parsed) == [];
      assert message == message + [];
    }
    assert "🤖" == [Robot];
    r := Ok([NewPage("🤖", message)]);
  }
}
