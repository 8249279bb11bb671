/**
 * Locating the previous research note and cutting it down to the text the next
 * prompt quotes. recurrent_notes.py and generate_pages.py share the selection of
 * the greatest "🤖20" title among the export's pages and the line processing of
 * `get_previous_notes`; those parts are modelled once here. Where the note comes
 * from differs between the scripts and is decided by the cycle methods.
 */
module PreviousNotes {
  import opened Strings
  import opened Scrapbox

  /** The `(title, lines)` pair the scripts collect for a page. */
  type Note = (string, seq<string>)

  function Entry(p: Page): Note
  {
    (p.title, p.lines)
  }

  /** A page whose title marks it as a generated research note. */
  predicate IsGenerated(p: Page)
  {
    GeneratedPrefix <= p.title
  }

  // ----- Python's order on lists of strings and on (title, lines) tuples -----

  /** `a < b` on Python lists of strings: lexicographic, a proper prefix is smaller. */
  predicate LinesLess(a: seq<string>, b: seq<string>)
    decreases |a|
  {
    if |a| == 0 then |b| > 0
    else |b| > 0 && (Less(a[0], b[0]) || (a[0] == b[0] && LinesLess(a[1..], b[1..])))
  }

  lemma {:induction false} LinesLessIrreflexive(a: seq<string>)
    ensures !LinesLess(a, a)
  {
    if |a| > 0 {
      LessIrreflexive(a[0]);
      LinesLessIrreflexive(a[1..]);
    }
  }

  lemma {:induction false} LinesLessTransitive(a: seq<string>, b: seq<string>, c: seq<string>)
    requires LinesLess(a, b) && LinesLess(b, c)
    ensures LinesLess(a, c)
  {
    if |a| > 0 {
      if Less(a[0], b[0]) && Less(b[0], c[0]) {
        LessTransitive(a[0], b[0], c[0]);
      } else if a[0] == b[0] && b[0] == c[0] {
        LinesLessTransitive(a[1..], b[1..], c[1..]);
      }
    }
  }

  lemma {:induction false} LinesLessTotal(a: seq<string>, b: seq<string>)
    ensures a == b || LinesLess(a, b) || LinesLess(b, a)
  {
    if |a| > 0 && |b| > 0 {
      LessTotal(a[0], b[0]);
      if a[0] == b[0] {
        LinesLessTotal(a[1..], b[1..]);
        if a[1..] == b[1..] {
          assert a == [a[0]] + a[1..] && b == [b[0]] + b[1..];
        }
      }
    }
  }

  /** `x < y` on `(title, lines)` tuples: by title, then by lines. */
  predicate NoteLess(x: Note, y: Note)
  {
    Less(x.0, y.0) || (x.0 == y.0 && LinesLess(x.1, y.1))
  }

  lemma NoteLessIrreflexive(x: Note)
    ensures !NoteLess(x, x)
  {
    LessIrreflexive(x.0);
    LinesLessIrreflexive(x.1);
  }

  lemma NoteLessTransitive(x: Note, y: Note, z: Note)
    requires NoteLess(x, y) && NoteLess(y, z)
    ensures NoteLess(x, z)
  {
    if Less(x.0, y.0) && Less(y.0, z.0) {
      LessTransitive(x.0, y.0, z.0);
    } else if x.0 == y.0 && y.0 == z.0 {
      LinesLessTransitive(x.1, y.1, z.1);
    }
  }

  lemma NoteLessTotal(x: Note, y: Note)
    ensures x == y || NoteLess(x, y) || NoteLess(y, x)
  {
    LessTotal(x.0, y.0);
    LinesLessTotal(x.1, y.1);
  }

  // ----- find_last_note_from_pages -----

  /** `n` is what `sorted(bot_output)[-1]` is: a generated page's pair that no other generated page's pair exceeds. */
  ghost predicate IsLastNote(pages: seq<Page>, n: Note)
  {
    && (exists i :: 0 <= i < |pages| && IsGenerated(pages[i]) && Entry(pages[i]) == n)
    && (forall i :: 0 <= i < |pages| && IsGenerated(pages[i]) ==> !NoteLess(n, Entry(pages[i])))
  }

  /**
   * Collects the `(title, lines)` pairs of the pages titled "🤖20…" and returns the
   * greatest, which is the last element of the sorted list the source builds.
   * Fails as `bot_output[-1]` does when there is no such page.
   */
  method FindLastNoteFromPages(pages: seq<Page>) returns (r: Result<Note>)
    ensures r.Err? <==> forall i :: 0 <= i < |pages| ==> !IsGenerated(pages[i])
    ensures r.Err? ==> r.error == NoGeneratedNote
    ensures r.Ok? ==> IsLastNote(pages, r.value)
    ensures r.Ok? ==> forall i :: 0 <= i < |pages| && IsGenerated(pages[i]) ==> !Less(r.value.0, pages[i].title)
  {
    var botOutput: seq<Note> := [];
    ghost var from: seq<nat> := [];
    for k := 0 to |pages|
      invariant |from| == |botOutput|
      invariant forall j :: 0 <= j < |from| ==> from[j] < k && IsGenerated(pages[from[j]]) && Entry(pages[from[j]]) == botOutput[j]
      invariant forall i :: 0 <= i < k && IsGenerated(pages[i]) ==> Entry(pages[i]) in botOutput
    {
      if GeneratedPrefix <= pages[k].title {
        botOutput := botOutput + [Entry(pages[k])];
        from := from + [k];
      }
    }
    if |botOutput| == 0 {
      return Err(NoGeneratedNote);
    }
    var last := botOutput[0];
    NoteLessIrreflexive(last);
    for j := 1 to |botOutput|
      invariant last in botOutput[..j]
      invariant forall m :: 0 <= m < j ==> !NoteLess(last, botOutput[m])
    {
      if NoteLess(last, botOutput[j]) {
        forall m | 0 <= m < j
          ensures !NoteLess(botOutput[j], botOutput[m])
        {
          if NoteLess(botOutput[j], botOutput[m]) {
            NoteLessTransitive(last, botOutput[j], botOutput[m]);
          }
        }
        NoteLessIrreflexive(botOutput[j]);
        last := botOutput[j];
      }
    }
    var w :| 0 <= w < |botOutput| && botOutput[w] == last;
    assert IsGenerated(pages[from[w]]) && Entry(pages[from[w]]) == last;
    r := Ok(last);
  }

  /** Two pairs that both qualify as the last note are the same pair: the greatest element is unique. */
  lemma LastNoteUnique(pages: seq<Page>, a: Note, b: Note)
    requires IsLastNote(pages, a) && IsLastNote(pages, b)
    ensures a == b
  {
    var i :| 0 <= i < |pages| && IsGenerated(pages[i]) && Entry(pages[i]) == a;
    var j :| 0 <= j < |pages| && IsGenerated(pages[j]) && Entry(pages[j]) == b;
    NoteLessTotal(a, b);
  }

  // ----- get_previous_notes -----

  /**
   * The lines up to, not including, the first sentinel line: the loop that copies
   * lines until it meets `___BELOW_IS_LESS_INTERESTING___`.
   */
  function UpToSentinel(lines: seq<string>): (r: seq<string>)
    ensures r <= lines
    ensures Sentinel !in r
    ensures |r| == |lines| || lines[|r|] == Sentinel
  {
    if |lines| == 0 || lines[0] == Sentinel then []
    else [lines[0]] + UpToSentinel(lines[1..])
  }

  /** Lines without a sentinel pass through untouched. */
  lemma {:induction false} UpToSentinelKeepsClean(lines: seq<string>)
    requires Sentinel !in lines
    ensures UpToSentinel(lines) == lines
  {
    if |lines| > 0 {
      assert lines[0] in lines;
      UpToSentinelKeepsClean(lines[1..]);
    }
  }

  /** Cutting at the sentinel a second time changes nothing. */
  lemma UpToSentinelIdempotent(lines: seq<string>)
    ensures UpToSentinel(UpToSentinel(lines)) == UpToSentinel(lines)
  {
    UpToSentinelKeepsClean(UpToSentinel(lines));
  }

  /** The cut is the only sentinel-free prefix that ends at a sentinel or at the end. */
  lemma {:induction false} UpToSentinelUnique(lines: seq<string>, p: seq<string>)
    requires p <= lines && Sentinel !in p
    requires |p| == |lines| || lines[|p|] == Sentinel
    ensures p == UpToSentinel(lines)
  {
    if |lines| > 0 && lines[0] != Sentinel {
      assert |p| > 0;
      assert p[0] in p;
      UpToSentinelUnique(lines[1..], p[1..]);
      assert p == [p[0]] + p[1..];
    }
  }

  /**
   * The lines of the previous note that the next prompt quotes: drop the title
   * line, drop one leading sentinel, stop at the next sentinel. A note with fewer
   * than two lines raises IndexError in the source.
   */
  function PreviousNoteLines(noteLines: seq<string>): (r: Result<seq<string>>)
    ensures r.Err? <==> |noteLines| < 2
    ensures r.Err? ==> r.error == NoteTooShort
    ensures r.Ok? ==> Sentinel !in r.value
    ensures r.Ok? ==>
      var skip := if noteLines[1] == Sentinel then 2 else 1;
      && r.value <= noteLines[skip..]
      && (skip + |r.value| == |noteLines| || noteLines[skip + |r.value|] == Sentinel)
  {
    if |noteLines| < 2 then Err(NoteTooShort)
    else
      var body := noteLines[1..];
      var body := if body[0] == Sentinel then body[1..] else body;
      Ok(UpToSentinel(body))
  }

  /**
   * `get_previous_notes` after the note has been fetched: pops the title, pops one
   * leading sentinel, copies lines until the next sentinel and joins them with "\n".
   */
  method GetPreviousNotes(noteLines: seq<string>) returns (r: Result<string>)
    ensures r.Err? <==> |noteLines| < 2
    ensures r.Err? ==> r.error == NoteTooShort
    ensures r.Ok? ==> r.value == Join(PreviousNoteLines(noteLines).value, "\n")
  {
    var prevLines := noteLines;
    if |prevLines| == 0 {
      return Err(NoteTooShort);
    }
    prevLines := prevLines[1..];
    if |prevLines| == 0 {
      return Err(NoteTooShort);
    }
    if prevLines[0] == Sentinel {
      prevLines := prevLines[1..];
    }
    var kept: seq<string> := [];
    var i := 0;
    while i < |prevLines|
      invariant 0 <= i <= |prevLines|
      invariant kept == prevLines[..i]
      invariant Sentinel !in kept
    {
      if prevLines[i] == Sentinel {
        break;
      }
      kept := kept + [prevLines[i]];
      i := i + 1;
    }
    UpToSentinelUnique(prevLines, kept);
    r := Ok(Join(kept, "\n"));
  }
}
