/**
 * The records the note scripts read and write: page records of the exported
 * Scrapbox project, pages to publish, the errors the scripts can raise, and the
 * timestamped titles of generated notes ("🤖" followed by `%Y-%m-%d %H:%M`).
 */
module Scrapbox {
  import opened Strings

  /** A page of the exported project: its title, its lines (the first one is the title) and its update time. */
  datatype Page = Page(title: string, lines: seq<string>, updated: int)

  /** The exported project: its export time and its pages. */
  datatype Snapshot = Snapshot(exported: int, pages: seq<Page>)

  /** A page the scripts hand back for publishing. */
  datatype NewPage = NewPage(title: string, lines: seq<string>)

  /** The exceptions the scripts let escape. */
  datatype Error =
    | NoGeneratedNote  // IndexError: `bot_output[-1]` when no title starts with "🤖20"
    | NoteTooShort     // IndexError: `prev_lines.pop(0)` or `prev_lines[0]` on a note with fewer than two lines
    | EmptyData        // RuntimeError: the fragment store is empty
    | KeysExhausted    // IndexError: `keys.pop(0)` when every fragment fits and budget remains
    | NoPages          // IndexError: `buf[0]` on a project without pages

  datatype Result<T> = Ok(value: T) | Err(error: Error)

  datatype Option<T> = None | Some(value: T)

  /** The marker every generated page carries in its title. */
  const Robot: char := '🤖'

  /** The title prefix of generated research notes from the years 2000 to 2099. */
  const GeneratedPrefix: string := "🤖20"

  /** The line that separates a note from its low-priority appendix. */
  const Sentinel: string := "___BELOW_IS_LESS_INTERESTING___"

  /** The default look-back window of the update filters, in seconds. */
  const Day: int := 60 * 60 * 24

  /** A reading of the wall clock, as `datetime.datetime` holds it. */
  datatype DateTime = DateTime(year: nat, month: nat, day: nat, hour: nat, minute: nat, second: nat)
  {
    predicate Valid()
    {
      1000 <= year <= 9999 && 1 <= month <= 12 && 1 <= day <= 31 && hour < 24 && minute < 60 && second < 60
    }
  }

  /** `strftime("%Y-%m-%d %H:%M")`. */
  function Stamp(d: DateTime): string
  {
    Padded(d.year, 4) + ("-" + (Padded(d.month, 2) + ("-" + (Padded(d.day, 2) +
      (" " + (Padded(d.hour, 2) + (":" + Padded(d.minute, 2))))))))
  }

  /** `strftime("%Y-%m-%d %H:%M:%S")`, the date written in a note's footer. */
  function StampSeconds(d: DateTime): string
  {
    Stamp(d) + ":" + Padded(d.second, 2)
  }

  /** The title of the note generated at `d`: "🤖" + `%Y-%m-%d %H:%M`. */
  function NoteTitle(d: DateTime): string
  {
    [Robot] + Stamp(d)
  }

  /** `a` is an earlier minute than `b`. */
  predicate Before(a: DateTime, b: DateTime)
  {
    a.year < b.year || (a.year == b.year &&
    (a.month < b.month || (a.month == b.month &&
    (a.day < b.day || (a.day == b.day &&
    (a.hour < b.hour || (a.hour == b.hour && a.minute < b.minute)))))))
  }

  predicate SameMinute(a: DateTime, b: DateTime)
  {
    a.year == b.year && a.month == b.month && a.day == b.day && a.hour == b.hour && a.minute == b.minute
  }

  /** One zero-padded field followed by a separator and the rest: compared field first, then the rest. */
  lemma FieldThen(n: nat, m: nat, w: nat, sep: string, x: string, y: string)
    requires n < Pow10(w) && m < Pow10(w)
    ensures Less(Padded(n, w) + (sep + x), Padded(m, w) + (sep + y)) <==> n < m || (n == m && Less(x, y))
    ensures Padded(n, w) + (sep + x) == Padded(m, w) + (sep + y) <==> n == m && x == y
  {
    PaddedOrder(n, m, w);
    LessConcat(Padded(n, w), sep + x, Padded(m, w), sep + y);
    LessConcat(sep, x, sep, y);
    LessIrreflexive(sep);
    var l, r := Padded(n, w) + (sep + x), Padded(m, w) + (sep + y);
    if l == r {
      assert Padded(n, w) == l[..w] && Padded(m, w) == r[..w];
      assert x == l[w + |sep|..] && y == r[w + |sep|..];
    }
  }

  /**
   * Titles of generated notes sort in chronological order: string order of the
   * titles is the order of the minutes they were generated in, and two titles
   * are equal exactly when they were generated in the same minute.
   */
  lemma TitleOrder(a: DateTime, b: DateTime)
    requires a.Valid() && b.Valid()
    ensures Less(NoteTitle(a), NoteTitle(b)) <==> Before(a, b)
    ensures NoteTitle(a) == NoteTitle(b) <==> SameMinute(a, b)
  {
    assert Pow10(2) == 100 && Pow10(4) == 10000;
    PaddedOrder(a.minute, b.minute, 2);
    var mi1, mi2 := Padded(a.minute, 2), Padded(b.minute, 2);
    FieldThen(a.hour, b.hour, 2, ":", mi1, mi2);
    var h1, h2 := Padded(a.hour, 2) + (":" + mi1), Padded(b.hour, 2) + (":" + mi2);
    FieldThen(a.day, b.day, 2, " ", h1, h2);
    var d1, d2 := Padded(a.day, 2) + (" " + h1), Padded(b.day, 2) + (" " + h2);
    FieldThen(a.month, b.month, 2, "-", d1, d2);
    var m1, m2 := Padded(a.month, 2) + ("-" + d1), Padded(b.month, 2) + ("-" + d2);
    FieldThen(a.year, b.year, 4, "-", m1, m2);
    assert Stamp(a) == Padded(a.year, 4) + ("-" + m1);
    assert Stamp(b) == Padded(b.year, 4) + ("-" + m2);
    LessConcat([Robot], Stamp(a), [Robot], Stamp(b));
    LessIrreflexive([Robot]);
    if NoteTitle(a) == NoteTitle(b) {
      assert Stamp(a) == NoteTitle(a)[1..] && Stamp(b) == NoteTitle(b)[1..];
    }
  }

  /**
   * A note generated at `d` carries the "🤖20" prefix that the next run looks for
   * exactly when `d` falls in the years 2000 to 2099.
   */
  lemma TitleIsGenerated(d: DateTime)
    requires d.Valid()
    ensures GeneratedPrefix <= NoteTitle(d) <==> 2000 <= d.year <= 2099
  {
    var y := d.year;
    assert y / 10 / 10 == y / 100;
    assert Padded(y, 4) == Padded(y / 100, 2) + [Digit(y / 10 % 10)] + [Digit(y % 10)];
    assert Pow10(2) == 100;
    assert Padded(20, 2) == "20";
    PaddedOrder(y / 100, 20, 2);
    var t := NoteTitle(d);
    assert t[..3] == [Robot] + Padded(y / 100, 2);
    assert GeneratedPrefix <= t <==> t[..3] == GeneratedPrefix;
    assert GeneratedPrefix == [Robot] + "20";
    assert [Robot] + Padded(y / 100, 2) == [Robot] + "20" <==> Padded(y / 100, 2) == "20" by {
      if [Robot] + Padded(y / 100, 2) == [Robot] + "20" {
        assert Padded(y / 100, 2) == ([Robot] + Padded(y / 100, 2))[1..];
      }
    }
  }
}
