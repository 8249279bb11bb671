/**
 * recurrent_notes.py: one cycle of the recurring research note. Skip the cycle
 * when a generated page was updated within the last day; otherwise read the
 * previous note, fill the remaining token budget with shuffled fragments, ask the
 * model, and lay out the new page: title, sentinel, the reply (or a failure
 * report with the prompt), and an eight-line provenance footer.
 */
module RecurrentNotes {
  import opened Strings
  import opened Scrapbox
  import opened PreviousNotes
  import opened Sampler
  import opened ApiUrl

  /** The throttle switch of the script; it is on. */
  const CheckRobotInUpdates: bool := true

  /** `make_digest`: the fragment's title, its text, then a blank line. */
  function MakeDigest(f: Fragment): string
  {
    f.title + "\n" + f.text + "\n\n"
  }

  /** A digest reads back, line by line, as its title, its text and two empty lines. */
  lemma DigestReadsBack(f: Fragment)
    requires '\n' !in f.title && '\n' !in f.text
    ensures Split(MakeDigest(f)) == [f.title, f.text, "", ""]
  {
    var parts := [f.title, f.text, "", ""];
    assert Join(parts, "\n") == MakeDigest(f) by {
      assert Join(["", ""], "\n") == "\n";
      assert Join([f.text, "", ""], "\n") == f.text + "\n" + "\n";
    }
    SplitJoin(parts);
  }

  /** A page updated at or after `limit` whose title carries the robot marker. */
  predicate RecentRobot(p: Page, limit: int)
  {
    p.updated >= limit && Robot in p.title
  }

  /** Some page updated within `span` seconds before the export carries "🤖" in its title. */
  predicate Throttled(data: Snapshot, span: int)
  {
    exists i :: 0 <= i < |data.pages| && RecentRobot(data.pages[i], data.exported - span)
  }

  /** `is_robot_in_updated_pages`: the scan that decides `Throttled`. */
  method IsRobotInUpdatedPages(data: Snapshot, span: int := Day) returns (found: bool)
    ensures found <==> Throttled(data, span)
  {
    var limit := data.exported - span;
    for i := 0 to |data.pages|
      invariant forall j :: 0 <= j < i ==> !RecentRobot(data.pages[j], limit)
    {
      var page := data.pages[i];
      if page.updated < limit {
        continue;
      }
      if Robot in page.title {
        return true;
      }
    }
    return false;
  }

  /** What the model call yields: the reply (stripped and converted to Scrapbox markup) or the text of the exception. */
  datatype ModelOutcome = Reply(text: string) | Failure(message: string)

  /** The lines between the sentinel and the footer: the reply's lines, or the failure report with the prompt's lines. */
  function BodyLines(outcome: ModelOutcome, prompt: string): seq<string>
  {
    match outcome
    case Reply(text) => Split(text)
    case Failure(message) => ["Failed to generate report.", message, "Prompt:"] + Split(prompt)
  }

  /** The eight-line provenance footer. */
  function FooterLines(date: DateTime, jsonSize: nat, pickleSize: nat, notesSize: nat,
                       prevTitle: string, titles: seq<string>): (r: seq<string>)
    ensures |r| == 8
    ensures r[0] == "" && r[1] == "[* extra info]"
    ensures r[6] == "previous notes: [" + prevTitle + "]"
    ensures r[7] == "titles: " + Join(titles, ", ")
    ensures Sentinel !in r
  {
    var r := [
      "",
      "[* extra info]",
      "date: " + StampSeconds(date),
      "json size: " + NatToString(jsonSize),
      "pickle size: " + NatToString(pickleSize),
      "previous notes size: " + NatToString(notesSize),
      "previous notes: [" + prevTitle + "]",
      "titles: " + Join(titles, ", ")
    ];
    assert forall i :: 2 <= i < 8 ==> r[i][0] != Sentinel[0];
    r
  }

  /** The lines of a generated page. */
  function PageLines(title: string, body: seq<string>, footer: seq<string>): seq<string>
  {
    [title, Sentinel] + body + footer
  }

  /**
   * Reading a generated page back as the next run's previous note gives exactly its
   * body and footer, whenever no body line is the sentinel.
   */
  lemma PageReadsBack(title: string, body: seq<string>, date: DateTime, jsonSize: nat, pickleSize: nat,
                      notesSize: nat, prevTitle: string, titles: seq<string>)
    requires Sentinel !in body
    ensures var footer := FooterLines(date, jsonSize, pickleSize, notesSize, prevTitle, titles);
      PreviousNoteLines(PageLines(title, body, footer)) == Ok(body + footer)
  {
    var footer := FooterLines(date, jsonSize, pickleSize, notesSize, prevTitle, titles);
    var lines := PageLines(title, body, footer);
    assert lines[1] == Sentinel;
    assert lines[2..] == body + footer;
    UpToSentinelKeepsClean(body + footer);
  }

  /**
   * The next run's previous notes start with the model's reply verbatim: they are
   * the reply text, a newline, and the footer joined by newlines.
   */
  lemma ReplyCarriesForward(title: string, text: string, date: DateTime, jsonSize: nat, pickleSize: nat,
                            notesSize: nat, prevTitle: string, titles: seq<string>)
    requires Sentinel !in Split(text)
    ensures var footer := FooterLines(date, jsonSize, pickleSize, notesSize, prevTitle, titles);
      var next := PreviousNoteLines(PageLines(title, BodyLines(Reply(text), ""), footer));
      next.Ok? && Join(next.value, "\n") == text + "\n" + Join(footer, "\n")
  {
    var footer := FooterLines(date, jsonSize, pickleSize, notesSize, prevTitle, titles);
    PageReadsBack(title, Split(text), date, jsonSize, pickleSize, notesSize, prevTitle, titles);
    JoinAppend(Split(text), footer, "\n");
    JoinSplit(text);
  }

  /**
   * The page just generated is the one the next run picks as its previous note,
   * when it carries the "🤖20" prefix and its title sorts after every other
   * generated title (by TitleOrder: it is the latest note).
   */
  lemma NewNoteIsNextPrevious(pages: seq<Page>, d: DateTime, lines: seq<string>, updated: int)
    requires d.Valid() && 2000 <= d.year <= 2099
    requires forall i :: 0 <= i < |pages| && IsGenerated(pages[i]) ==> Less(pages[i].title, NoteTitle(d))
    ensures IsLastNote(pages + [Page(NoteTitle(d), lines, updated)], (NoteTitle(d), lines))
  {
    TitleIsGenerated(d);
    var all := pages + [Page(NoteTitle(d), lines, updated)];
    assert IsGenerated(all[|pages|]) && Entry(all[|pages|]) == (NoteTitle(d), lines);
    forall i | 0 <= i < |all| && IsGenerated(all[i])
      ensures !NoteLess((NoteTitle(d), lines), Entry(all[i]))
    {
      if i < |pages| {
        assert all[i] == pages[i];
        if Less(NoteTitle(d), pages[i].title) {
          LessTransitive(NoteTitle(d), pages[i].title, NoteTitle(d));
          LessIrreflexive(NoteTitle(d));
        }
        LessIrreflexive(NoteTitle(d));
      } else {
        NoteLessIrreflexive((NoteTitle(d), lines));
      }
    }
  }

  /**
   * The appends of `main` that build the new page: title and sentinel, then the
   * reply's lines or the failure report, then the footer.
   */
  method LayOutPage(title: string, outcome: ModelOutcome, prompt: string, date: DateTime,
                    jsonSize: nat, pickleSize: nat, notesSize: nat, prevTitle: string, titles: seq<string>)
    returns (lines: seq<string>)
    ensures lines == PageLines(title, BodyLines(outcome, prompt),
                               FooterLines(date, jsonSize, pickleSize, notesSize, prevTitle, titles))
  {
    lines := [title, Sentinel];
    match outcome {
      case Reply(text) =>
        lines := lines + Split(text);
      case Failure(message) =>
        lines := lines + ["Failed to generate report."];
        lines := lines + [message];
        lines := lines + ["Prompt:"];
        lines := lines + Split(prompt);
    }
    ghost var laidOut := lines;
    assert laidOut == [title, Sentinel] + BodyLines(outcome, prompt);

    // extra info
    lines := lines + [""];
    lines := lines + ["[* extra info]"];
    lines := lines + ["date: " + StampSeconds(date)];
    lines := lines + ["json size: " + NatToString(jsonSize)];
    lines := lines + ["pickle size: " + NatToString(pickleSize)];
    lines := lines + ["previous notes size: " + NatToString(notesSize)];
    lines := lines + ["previous notes: [" + prevTitle + "]"];
    lines := lines + ["titles: " + Join(titles, ", ")];
    AppendEight(laidOut, FooterLines(date, jsonSize, pickleSize, notesSize, prevTitle, titles));
  }

  /** Eight single appends add the eight lines in order. */
  lemma AppendEight(a: seq<string>, f: seq<string>)
    requires |f| == 8
    ensures a + [f[0]] + [f[1]] + [f[2]] + [f[3]] + [f[4]] + [f[5]] + [f[6]] + [f[7]] == a + f
  {
    assert f == [f[0], f[1], f[2], f[3], f[4], f[5], f[6], f[7]];
  }

  /**
   * One cycle of `main`. Returns no page when a robot page was updated within the
   * last day; otherwise exactly one page titled "🤖" + `now` as `%Y-%m-%d %H:%M`,
   * unless one of the script's exceptions escapes first. The previous note is read
   * from the API URL of `url` when `url` is non-empty (`fetch` stands for the HTTP
   * request), else it is `latest` when `--get-latest` fetched one, else it comes
   * from the export. The ghost results name the intermediate values: the previous
   * note, its quoted text, the sample and the prompt.
   */
  method RunCycle<K>(snapshot: Snapshot, url: string, latest: Option<Note>, fetch: string -> Note,
                     data: map<K, Fragment>, order: seq<K>,
                     now: DateTime, footerNow: DateTime, jsonSize: nat, pickleSize: nat,
                     template: NotesPrompt, size: string -> nat, model: string -> ModelOutcome)
    returns (r: Result<seq<NewPage>>, ghost prev: Note, ghost previousNotes: string,
             ghost sample: Sample, ghost prompt: string)
    requires IsShuffleOf(order, data)
    ensures Throttled(snapshot, Day) ==> r == Ok([])
    ensures !Throttled(snapshot, Day) && r.Ok? ==> |r.value| == 1
    ensures r.Err? ==> r.error == NoGeneratedNote || r.error == NoteTooShort || r.error == EmptyData || r.error == KeysExhausted
    // past the throttle, each stage fails exactly when its input calls for it
    ensures !Throttled(snapshot, Day) ==>
      (r == Err(NoGeneratedNote) <==>
         |url| == 0 && latest.None? && forall i :: 0 <= i < |snapshot.pages| ==> !IsGenerated(snapshot.pages[i]))
    ensures !Throttled(snapshot, Day) && r != Err(NoGeneratedNote) ==>
      && (|url| > 0 ==> prev == fetch(Rewrite(url)))
      && (|url| == 0 && latest.Some? ==> prev == latest.value)
      && (|url| == 0 && latest.None? ==> IsLastNote(snapshot.pages, prev))
      && (r == Err(NoteTooShort) <==> |prev.1| < 2)
    ensures !Throttled(snapshot, Day) && r != Err(NoGeneratedNote) && |prev.1| >= 2 ==>
      && previousNotes == Join(PreviousNoteLines(prev.1).value, "\n")
      && (r == Err(EmptyData) <==> |data| == 0)
    ensures !Throttled(snapshot, Day) && r != Err(NoGeneratedNote) && |prev.1| >= 2 && |data| > 0 ==>
      (r == Err(KeysExhausted) <==> TextTokens(data, order, size) < Budget(template, previousNotes, size))
    ensures r.Ok? && r.value != [] ==>
      && (|url| > 0 ==> prev == fetch(Rewrite(url)))
      && (|url| == 0 && latest.Some? ==> prev == latest.value)
      && (|url| == 0 && latest.None? ==> IsLastNote(snapshot.pages, prev))
      && PreviousNoteLines(prev.1).Ok?
      && previousNotes == Join(PreviousNoteLines(prev.1).value, "\n")
      && |data| > 0
      && GreedyStop(data, order, Budget(template, previousNotes, size), size, |sample.titles|)
      && |sample.digests| == |sample.titles|
      && (forall j :: 0 <= j < |sample.titles| ==>
            sample.titles[j] == data[order[j]].title && sample.digests[j] == MakeDigest(data[order[j]]))
      && prompt == template.Render(previousNotes, Join(sample.digests, "\n"))
      && r.value == [NewPage(NoteTitle(now), PageLines(NoteTitle(now), BodyLines(model(prompt), prompt),
                       FooterLines(footerNow, jsonSize, pickleSize, size(previousNotes), prev.0, sample.titles)))]
  {
    prev, previousNotes, sample, prompt := ("", []), "", Sample([], [], 0), "";
    var outputPageTitle := NoteTitle(now);

    var throttled := IsRobotInUpdatedPages(snapshot);
    if CheckRobotInUpdates && throttled {
      return Ok([]), prev, previousNotes, sample, prompt;
    }

    // get_previous_notes
    var note: Note;
    if |url| > 0 {
      note := fetch(Rewrite(url));
    } else if latest.Some? {
      note := latest.value;
    } else {
      var last := FindLastNoteFromPages(snapshot.pages);
      if last.Err? {
        return Err(last.error), prev, previousNotes, sample, prompt;
      }
      note := last.value;
    }
    var prevTitle := note.0;
    prev := note;
    var notes := GetPreviousNotes(note.1);
    if notes.Err? {
      return Err(notes.error), prev, previousNotes, sample, prompt;
    }
    var notesText := notes.value;
    previousNotes := notesText;

    if |data| == 0 {
      return Err(EmptyData), prev, previousNotes, sample, prompt;
    }

    // fill the rest with random fragments
    var sampled := SampleFragments(data, order, Budget(template, notesText, size), size, MakeDigest);
    if sampled.Err? {
      return Err(sampled.error), prev, previousNotes, sample, prompt;
    }
    var digests, titles := sampled.value.digests, sampled.value.titles;
    sample := sampled.value;
    var digestStr := Join(digests, "\n");
    var promptText := template.Render(notesText, digestStr);
    prompt := promptText;

    var outcome := model(promptText);
    var lines := LayOutPage(outputPageTitle, outcome, promptText, footerNow, jsonSize, pickleSize,
                            size(notesText), prevTitle, titles);
    r := Ok([NewPage(outputPageTitle, lines)]);
  }
}
