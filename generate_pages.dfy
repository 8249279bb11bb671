/**
 * generate_pages.py: the page filters (`get_updated_pages`, `get_random_pages`)
 * and the effective `main`, which reads the previous note (from the export, or from
 * the API URL of a given page URL), samples fragments into the remaining token
 * budget and builds the prompt, then returns no page.
 */
module GeneratePages {
  import opened Strings
  import opened Scrapbox
  import opened PreviousNotes
  import opened Sampler
  import opened ApiUrl

  /** `make_digest`: a level-3 heading with the title, the text, then a newline. */
  function MakeDigest(f: Fragment): string
  {
    "### " + f.title + "\n" + f.text + "\n"
  }

  /** A digest reads back, line by line, as the heading, the text and one empty line. */
  lemma DigestReadsBack(f: Fragment)
    requires '\n' !in f.title && '\n' !in f.text
    ensures Split(MakeDigest(f)) == ["### " + f.title, f.text, ""]
  {
    var parts := ["### " + f.title, f.text, ""];
    assert '\n' !in "### " + f.title;
    assert Join(parts, "\n") == MakeDigest(f) by {
      assert Join([f.text, ""], "\n") == f.text + "\n" + "";
    }
    SplitJoin(parts);
  }

  // ----- the page filters -----

  /** Titles the filters never pick: those holding "🤖" or "ネタバレ注意" (spoiler warning). */
  predicate Excluded(title: string)
  {
    Robot in title || Contains(title, "ネタバレ注意")
  }

  /** Which pages a filter keeps: `Recent(limit)` also drops pages updated before `limit`. */
  datatype Window = Recent(limit: int) | Any

  predicate Keeps(w: Window, p: Page)
  {
    !Excluded(p.title) && (w.Recent? ==> p.updated >= w.limit)
  }

  /** The titles of the kept pages. */
  function KeptTitles(pages: seq<Page>, w: Window): set<string>
  {
    set i | 0 <= i < |pages| && Keeps(w, pages[i]) :: pages[i].title
  }

  /** `p` is the last kept page among the first `n` titled `t`: the one a dict filled in page order holds. */
  ghost predicate LastKept(pages: seq<Page>, n: nat, w: Window, t: string, p: Page)
    requires n <= |pages|
  {
    exists i :: 0 <= i < n && pages[i] == p && Keeps(w, p) && p.title == t &&
      forall j :: i < j < n ==> !(Keeps(w, pages[j]) && pages[j].title == t)
  }

  /** One more page adds its title to the kept titles exactly when the filter keeps it. */
  lemma KeptTitlesStep(pages: seq<Page>, k: nat, w: Window)
    requires k < |pages|
    ensures KeptTitles(pages[..k + 1], w) ==
            KeptTitles(pages[..k], w) + (if Keeps(w, pages[k]) then {pages[k].title} else {})
  {
    assert forall i :: 0 <= i < k + 1 ==> pages[..k + 1][i] == pages[i];
    assert forall i :: 0 <= i < k ==> pages[..k][i] == pages[i];
  }

  /** A page the filter drops leaves every entry the last kept page of its title. */
  lemma LastKeptSkip(pages: seq<Page>, k: nat, w: Window, m: map<string, Page>)
    requires k < |pages| && !Keeps(w, pages[k])
    requires forall t :: t in m ==> LastKept(pages, k, w, t, m[t])
    ensures forall t :: t in m ==> LastKept(pages, k + 1, w, t, m[t])
  {
    forall t | t in m
      ensures LastKept(pages, k + 1, w, t, m[t])
    {
      var i :| 0 <= i < k && pages[i] == m[t] && Keeps(w, m[t]) && m[t].title == t &&
        forall j :: i < j < k ==> !(Keeps(w, pages[j]) && pages[j].title == t);
    }
  }

  /** Storing a kept page under its title keeps every entry the last kept page of its title. */
  lemma LastKeptStore(pages: seq<Page>, k: nat, w: Window, m: map<string, Page>)
    requires k < |pages| && Keeps(w, pages[k])
    requires forall t :: t in m ==> LastKept(pages, k, w, t, m[t])
    ensures var m' := m[pages[k].title := pages[k]];
      forall t :: t in m' ==> LastKept(pages, k + 1, w, t, m'[t])
  {
    var m' := m[pages[k].title := pages[k]];
    forall t | t in m'
      ensures LastKept(pages, k + 1, w, t, m'[t])
    {
      if t != pages[k].title {
        var i :| 0 <= i < k && pages[i] == m[t] && Keeps(w, m[t]) && m[t].title == t &&
          forall j :: i < j < k ==> !(Keeps(w, pages[j]) && pages[j].title == t);
      }
    }
  }

  /**
   * The dict both filters fill page by page, keyed by title: a later kept page
   * with the same title overwrites an earlier one.
   */
  method CollectByTitle(pages: seq<Page>, w: Window) returns (m: map<string, Page>)
    ensures m.Keys == KeptTitles(pages, w)
    ensures forall t :: t in m ==> LastKept(pages, |pages|, w, t, m[t])
  {
    m := map[];
    for k := 0 to |pages|
      invariant m.Keys == KeptTitles(pages[..k], w)
      invariant forall t :: t in m ==> LastKept(pages, k, w, t, m[t])
    {
      var page := pages[k];
      KeptTitlesStep(pages, k, w);
      if w.Recent? && page.updated < w.limit {
        LastKeptSkip(pages, k, w, m);
        continue;
      }
      if Robot in page.title || Contains(page.title, "ネタバレ注意") {
        LastKeptSkip(pages, k, w, m);
        continue;
      }
      LastKeptStore(pages, k, w, m);
      m := m[page.title := page];
    }
    assert pages[..|pages|] == pages;
  }

  /**
   * `get_updated_pages`: the pages updated within `span` seconds before the export
   * whose titles hold neither marker, keyed by title; for a repeated title, the
   * last such page.
   */
  method GetUpdatedPages(data: Snapshot, span: int := Day) returns (updated: map<string, Page>)
    ensures forall t :: t in updated <==>
      (exists i :: 0 <= i < |data.pages| && data.pages[i].title == t &&
         data.pages[i].updated >= data.exported - span && !Excluded(t))
    ensures forall t :: t in updated ==> LastKept(data.pages, |data.pages|, Recent(data.exported - span), t, updated[t])
  {
    var limit := data.exported - span;
    updated := CollectByTitle(data.pages, Recent(limit));
    forall t | t in updated
      ensures (exists i :: 0 <= i < |data.pages| && data.pages[i].title == t &&
                 data.pages[i].updated >= data.exported - span && !Excluded(t))
    {
      var i :| 0 <= i < |data.pages| && Keeps(Recent(limit), data.pages[i]) && data.pages[i].title == t;
    }
    forall t | (exists i :: 0 <= i < |data.pages| && data.pages[i].title == t &&
                 data.pages[i].updated >= data.exported - span && !Excluded(t))
      ensures t in updated
    {
      var i :| 0 <= i < |data.pages| && data.pages[i].title == t &&
        data.pages[i].updated >= data.exported - span && !Excluded(t);
      assert Keeps(Recent(limit), data.pages[i]);
    }
  }

  // ----- get_random_pages -----

  predicate Distinct<T(==)>(s: seq<T>)
  {
    forall i, j :: 0 <= i < j < |s| ==> s[i] != s[j]
  }

  /** A list of distinct elements has as many elements as the set of them. */
  lemma {:induction false} DistinctCard<T>(s: seq<T>)
    requires Distinct(s)
    ensures |set x | x in s| == |s|
  {
    if |s| > 0 {
      var init := s[..|s| - 1];
      DistinctCard(init);
      assert (set x | x in s) == (set x | x in init) + {s[|s| - 1]} by {
        assert s == init + [s[|s| - 1]];
      }
      assert s[|s| - 1] !in init by {
        forall i | 0 <= i < |init| ensures init[i] != s[|s| - 1] {
          assert init[i] == s[i];
        }
      }
    } else {
      assert (set x | x in s) == {};
    }
  }

  /** A list of distinct elements listing exactly the elements of `s` has `|s|` elements. */
  lemma ListsSet<T>(order: seq<T>, s: set<T>)
    requires Distinct(order)
    requires forall t :: t in order <==> t in s
    ensures |s| == |order|
  {
    DistinctCard(order);
    assert (set t | t in order) == s;
  }

  /** The first `n` elements of a list of distinct elements are `n` distinct elements. */
  lemma PrefixCard<T>(order: seq<T>, n: nat)
    requires Distinct(order) && n <= |order|
    ensures |set t | t in order[..n]| == n
  {
    assert Distinct(order[..n]);
    DistinctCard(order[..n]);
  }

  /** The length of `keys[:num]` for a list of `len` keys: Python slicing, negative ends counting from the back. */
  function SliceEnd(num: int, len: nat): (n: nat)
    ensures n <= len
    ensures 0 <= num ==> n == (if num < len then num else len)
    ensures num < 0 ==> n == (if -num < len then len + num else 0)
  {
    if num >= 0 then (if num < len then num else len)
    else if len + num > 0 then len + num else 0
  }

  /**
   * `get_random_pages`: the marker-free pages keyed by title (no time window),
   * restricted to the first `num` titles of the shuffled title list `order`.
   */
  method GetRandomPages(data: Snapshot, order: seq<string>, num: int := 4) returns (picked: map<string, Page>)
    requires Distinct(order)
    requires forall t :: t in order <==> t in KeptTitles(data.pages, Any)
    ensures picked.Keys == set t | t in order[..SliceEnd(num, |order|)]
    ensures |picked| == SliceEnd(num, |order|)
    ensures 0 <= num ==>
      |picked| == if num < |KeptTitles(data.pages, Any)| then num else |KeptTitles(data.pages, Any)|
    ensures forall t :: t in picked ==> !Excluded(t) && LastKept(data.pages, |data.pages|, Any, t, picked[t])
  {
    var targetPages := CollectByTitle(data.pages, Any);
    var keys := order;
    var cut := SliceEnd(num, |keys|);
    picked := map k | k in keys[..cut] :: targetPages[k];
    assert picked.Keys == set t | t in order[..cut];
    PrefixCard(order, cut);
    ListsSet(order, KeptTitles(data.pages, Any));
    forall t | t in picked
      ensures !Excluded(t)
    {
      var i :| 0 <= i < |data.pages| && Keeps(Any, data.pages[i]) && data.pages[i].title == t;
    }
  }

  // ----- the effective main -----

  /**
   * The second `main` of the script, the one Python keeps: no throttle and no
   * empty-store check. The previous note comes from the API URL of `url` when
   * `url` is non-empty (`fetch` stands for the HTTP request), else from the export.
   * It returns no page right after the prompt is built; `prompt` is the text it prints.
   */
  method GenerateCycle<K>(snapshot: Snapshot, url: string, fetch: string -> Note,
                          data: map<K, Fragment>, order: seq<K>, template: NotesPrompt, size: string -> nat)
    returns (r: Result<seq<NewPage>>, prompt: string, ghost prev: Note, ghost previousNotes: string, ghost sample: Sample)
    requires IsShuffleOf(order, data)
    ensures r.Ok? ==> r.value == []
    ensures r.Err? ==> r.error == NoGeneratedNote || r.error == NoteTooShort || r.error == KeysExhausted
    // each stage fails exactly when its input calls for it
    ensures r == Err(NoGeneratedNote) <==>
      |url| == 0 && forall i :: 0 <= i < |snapshot.pages| ==> !IsGenerated(snapshot.pages[i])
    ensures r != Err(NoGeneratedNote) ==>
      && (|url| > 0 ==> prev == fetch(Rewrite(url)))
      && (|url| == 0 ==> IsLastNote(snapshot.pages, prev))
      && (r == Err(NoteTooShort) <==> |prev.1| < 2)
    ensures r != Err(NoGeneratedNote) && |prev.1| >= 2 ==>
      && previousNotes == Join(PreviousNoteLines(prev.1).value, "\n")
      && (r == Err(KeysExhausted) <==> TextTokens(data, order, size) < Budget(template, previousNotes, size))
    ensures r.Ok? ==>
      && (|url| > 0 ==> prev == fetch(Rewrite(url)))
      && (|url| == 0 ==> IsLastNote(snapshot.pages, prev))
      && PreviousNoteLines(prev.1).Ok?
      && previousNotes == Join(PreviousNoteLines(prev.1).value, "\n")
      && GreedyStop(data, order, Budget(template, previousNotes, size), size, |sample.titles|)
      && |sample.digests| == |sample.titles|
      && (forall j :: 0 <= j < |sample.titles| ==>
            sample.titles[j] == data[order[j]].title && sample.digests[j] == MakeDigest(data[order[j]]))
      && prompt == template.Render(previousNotes, Join(sample.digests, "\n"))
  {
    prev, previousNotes, sample, prompt := ("", []), "", Sample([], [], 0), "";

    var note: Note;
    if |url| > 0 {
      var apiUrl := Rewrite(url);
      note := fetch(apiUrl);
    } else {
      var last := FindLastNoteFromPages(snapshot.pages);
      if last.Err? {
        return Err(last.error), prompt, prev, previousNotes, sample;
      }
      note := last.value;
    }
    prev := note;
    var notes := GetPreviousNotes(note.1);
    if notes.Err? {
      return Err(notes.error), prompt, prev, previousNotes, sample;
    }
    var notesText := notes.value;
    previousNotes := notesText;

    // fill the rest with random fragments
    var sampled := SampleFragments(data, order, Budget(template, notesText, size), size, MakeDigest);
    if sampled.Err? {
      return Err(sampled.error), prompt, prev, previousNotes, sample;
    }
    sample := sampled.value;
    var digestStr := Join(sampled.value.digests, "\n");
    prompt := template.Render(notesText, digestStr);
    r := Ok([]);
  }
}
