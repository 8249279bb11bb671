# Recurrent research notes for Scrapbox: a Dafny model of the context assembly

The `write_to_scrapbox` scripts produce pages for a Scrapbox wiki. They never write to Scrapbox themselves: each returns a list of pages for a publisher. The two note scripts read a page from the Scrapbox API only when given a page URL (`--url`) or, in recurrent_notes.py, `--get-latest`. find_long_page.py reads only the export. This project models the logic that decides what goes into a prompt and what the resulting page looks like. It proves properties of that model.

- **recurrent_notes.py** runs one cycle of the recurring research note.
  - It skips the cycle when a page whose title holds "🤖" was updated within a day before the export.
  - Otherwise it picks the latest generated note. That is the greatest title with the prefix "🤖20".
  - It cuts that note down to the text between the title, one leading `___BELOW_IS_LESS_INTERESTING___` sentinel and the next sentinel.
  - It fills the remaining token budget with shuffled fragments, greedily, stopping at the first that does not fit.
  - It lays out the new page: title, sentinel, the reply (or a failure report carrying the prompt), and an eight-line footer.
- **generate_pages.py** has the page filters `get_updated_pages` and `get_random_pages`. Its effective `main` reads the previous note, from the API URL of a page URL or from the export. It samples fragments the same way, builds the prompt and returns no page.
- **find_long_page.py** does four things:
  - It finds the page with the most tokens.
  - It quotes the bottom part of that page that the scan from the last line upward takes, within 4000 tokens, before the first line that does not fit.
  - It asks the model for the topics of that conversation.
  - It writes a page titled "🤖": four header lines, then six lines per topic in index order.

Modules, one per file:

- `Strings` (strings.dfy) covers `join`, `split("\n")`, substring tests, `str(int)`, zero-padded fields and Python's code-point order on `str`.
- `Scrapbox` (scrapbox.dfy) holds the page records, the errors the scripts raise and the timestamped note titles.
- `PreviousNotes` (previous_notes.dfy) selects the previous note and cuts it.
- `Sampler` (sampler.dfy) is the token-budget sampling loop.
- `ApiUrl` (api_url.dfy) is the `re.sub` that turns a page URL into an API URL.
- `RecurrentNotes`, `GeneratePages` and `FindLongPage` hold the three scripts.

Both note scripts share some code: the selection of the greatest "🤖20" title among the export's pages, the line processing of `get_previous_notes` (recurrent_notes.py:139-148, generate_pages.py:133-142), the sampling loop and the URL rewrite. Each of these is modelled once. The scripts differ in where the previous note comes from: only recurrent_notes.py has the `--get-latest` branch. That choice is made in each cycle method. The sampler takes the script's `make_digest` as a parameter.

The outside world enters as parameters:

| Parameter | Stands for |
|---|---|
| `size: string -> nat` | The tokenizer `get_size`. |
| `order` | The key list after `random.shuffle`. It must list every key exactly once. |
| Two `DateTime` values | The two calls to `datetime.now()`: the title and the footer date. |
| `model`, `gpt`, `fetch`, `decode` | The OpenAI call, the HTTP request and `json.loads`. |
| `jsonSize`, `pickleSize` | The file sizes. |

An exception that escapes a script is an `Err` result. Each exception has its own `Error` constructor.

## Model

| member | source | states |
|---|---|---|
| Strings.JoinSplit | write_to_scrapbox/recurrent_notes.py:215 | joining the parts of `text.split("\n")` with "\n" gives back the text |
| Strings.SplitJoin | write_to_scrapbox/recurrent_notes.py:148 | splitting the "\n"-join of a non-empty list of newline-free lines (empty lines allowed) gives back exactly that list |
| Strings.ContainsIsSlice | write_to_scrapbox/generate_pages.py:54 | the substring test `x in title` holds exactly when some slice of the title equals `x` |
| Strings.PaddedOrder | write_to_scrapbox/recurrent_notes.py:160 | zero-padded `%Y`/`%m`/`%d`/`%H`/`%M` fields of one width compare as strings exactly as the numbers compare, and are equal exactly when the numbers are |
| Scrapbox.TitleOrder | write_to_scrapbox/recurrent_notes.py:159-161 | for valid dates, one note title is string-less than another iff it was generated in an earlier minute, and two titles are equal iff they were generated in the same minute |
| Scrapbox.TitleIsGenerated | write_to_scrapbox/recurrent_notes.py:159-161 | a generated title carries the "🤖20" prefix the selection looks for iff the year is 2000 to 2099 |
| PreviousNotes.FindLastNoteFromPages | write_to_scrapbox/recurrent_notes.py:78-85 | fails with the `bot_output[-1]` IndexError iff no title starts with "🤖20"; otherwise returns a collected `(title, lines)` pair that no other collected pair exceeds in tuple order, so its title is the greatest |
| PreviousNotes.LastNoteUnique | write_to_scrapbox/recurrent_notes.py:83-84 | the greatest pair is unique, so it is the element `sort()` puts last |
| PreviousNotes.UpToSentinel | write_to_scrapbox/recurrent_notes.py:142-146 | the copied lines are a prefix of the input, contain no sentinel, and end at the first sentinel or at the end |
| PreviousNotes.UpToSentinelKeepsClean | write_to_scrapbox/recurrent_notes.py:142-146 | lines without a sentinel are copied whole |
| PreviousNotes.UpToSentinelIdempotent | write_to_scrapbox/recurrent_notes.py:142-146 | cutting a second time changes nothing |
| PreviousNotes.UpToSentinelUnique | write_to_scrapbox/recurrent_notes.py:142-146 | the cut is the only sentinel-free prefix that ends at a sentinel or at the end |
| PreviousNotes.PreviousNoteLines | write_to_scrapbox/recurrent_notes.py:139-146 | fails iff the note has fewer than two lines; otherwise the kept lines are sentinel-free and are the prefix of the lines after the title and one leading sentinel that stops at the next sentinel |
| PreviousNotes.GetPreviousNotes | write_to_scrapbox/recurrent_notes.py:139-148 | the pops, the break loop and the join yield the "\n"-join of exactly those kept lines, and fail iff the note has fewer than two lines |
| Sampler.SampleFragments | write_to_scrapbox/recurrent_notes.py:180-193 | fails on `keys.pop(0)` iff the texts of all fragments total less than the budget. Otherwise the accepted fragments are the first `n` of the shuffled order, where `n` is the greedy stopping point. Titles and digests are in acceptance order and of equal length, and `rest` is the budget minus the accepted text sizes. After any acceptance `rest >= 0` and the accepted sizes total at most the budget; with budget `<= 0` nothing is accepted |
| Sampler.GreedyStopUnique | write_to_scrapbox/recurrent_notes.py:185-190 | the stopping point is determined by the order and the budget: the scan never skips a fragment to take a later one |
| RecurrentNotes.DigestReadsBack | write_to_scrapbox/recurrent_notes.py:59-62 | a digest splits back into the fragment's title, its text and two empty lines |
| RecurrentNotes.IsRobotInUpdatedPages | write_to_scrapbox/recurrent_notes.py:65-74 | true iff some page updated at or after `exported - span` has "🤖" in its title |
| RecurrentNotes.FooterLines | write_to_scrapbox/recurrent_notes.py:226-233 | the footer is eight lines. It starts with "" and "[* extra info]" and ends with "previous notes: [title]" and "titles: " plus the ", "-joined titles. None of its lines is the sentinel |
| RecurrentNotes.LayOutPage | write_to_scrapbox/recurrent_notes.py:203-233 | the appends build `[title, sentinel]` (line 162), then the reply's lines or the four-part failure report with the prompt's lines, then the footer |
| RecurrentNotes.PageReadsBack | write_to_scrapbox/recurrent_notes.py:139-148 | reading a generated page back as a previous note yields exactly its body lines plus its footer, when no body line is the sentinel |
| RecurrentNotes.ReplyCarriesForward | write_to_scrapbox/recurrent_notes.py:212-215 | the next run's previous notes are the reply text verbatim, a newline, then the footer |
| RecurrentNotes.NewNoteIsNextPrevious | write_to_scrapbox/recurrent_notes.py:78-85 | a note titled at a 20xx date later than every other generated title is the note the next selection picks |
| RecurrentNotes.RunCycle | write_to_scrapbox/recurrent_notes.py:152-237 | throttled iff the day window holds a robot page, and a throttled cycle returns no page; otherwise at most one page. Past the throttle, each error arises exactly when its cause holds: `NoGeneratedNote` iff there is no URL, no `--get-latest` note and no generated page; otherwise the previous note is the URL's API page, the `--get-latest` note or the export's last note, and `NoteTooShort` iff it has fewer than two lines; then `EmptyData` iff the store is empty; then `KeysExhausted` iff all texts together take fewer tokens than the budget left after the cut text. On success, the previous note comes from the URL's API page, `--get-latest` or the export's last note. The prompt is the template filled with its cut text and the "\n"-join of the greedy sample's digests. The page is titled "🤖" + the minute stamp and laid out from the model's outcome and the footer |
| ApiUrl.NonSlashRun | write_to_scrapbox/generate_pages.py:120-122 | the run a greedy `[^/]+` consumes: a slash-free prefix that ends at a slash or at the end |
| ApiUrl.MatchAt | write_to_scrapbox/generate_pages.py:120-122 | a match at the front has non-empty slash-free project and title groups and fits in the text |
| ApiUrl.MatchCovers | write_to_scrapbox/generate_pages.py:120-122 | the matched text is "https://scrapbox.io/" + project + "/" + title |
| ApiUrl.NonSlashRunOf | write_to_scrapbox/generate_pages.py:120-122 | the greedy group takes a whole slash-free run that a slash or the end follows |
| ApiUrl.RewritePageUrl | write_to_scrapbox/generate_pages.py:120-122 | "https://scrapbox.io/P/T" followed by nothing or by "/..." becomes "https://scrapbox.io/api/pages/P/T" followed by the rewrite of the rest, for non-empty slash-free P and T |
| ApiUrl.RewriteNoteUrl | write_to_scrapbox/generate_pages.py:120-122 | "https://scrapbox.io/P/T" maps to "https://scrapbox.io/api/pages/P/T" for non-empty slash-free P and T |
| ApiUrl.RewriteWithoutMatch | write_to_scrapbox/generate_pages.py:120-122 | a text in which the pattern matches nowhere is left unchanged |
| GeneratePages.DigestReadsBack | write_to_scrapbox/generate_pages.py:38-41 | a digest splits back into "### " + title, the text and one empty line |
| GeneratePages.CollectByTitle | write_to_scrapbox/generate_pages.py:50-56 | the dict's keys are exactly the titles of the kept pages, and each maps to the last kept page with that title |
| GeneratePages.GetUpdatedPages | write_to_scrapbox/generate_pages.py:47-57 | a title is a key iff some page with it was updated at or after `exported - span` and the title holds neither "🤖" nor "ネタバレ注意". Its value is the last such page |
| GeneratePages.GetRandomPages | write_to_scrapbox/generate_pages.py:72-81 | the keys are the first `keys[:num]` titles of the shuffled eligible titles, `min(num, #eligible)` of them for `num >= 0`. Each is marker-free and maps to the last page with that title |
| GeneratePages.GenerateCycle | write_to_scrapbox/generate_pages.py:146-186 | never returns a page. Each error arises exactly when its cause holds: `NoGeneratedNote` iff there is no URL and no generated page; otherwise the previous note is the URL's API page or the export's last note, and `NoteTooShort` iff it has fewer than two lines; then `KeysExhausted` iff all texts together take fewer tokens than the budget left after the cut text. On success, the previous note comes from the API URL of a non-empty `url` or from the export's last note. The printed prompt is the template filled with the cut text and the "\n"-join of the greedy sample's `### ` digests |
| FindLongPage.TakeBottom | write_to_scrapbox/find_long_page.py:90-97 | the result is `lines[k] + "\n"` for each line of the suffix from the stopping point `k`. Every suffix from `k` on fits the budget, and the line above `k` does not. A non-empty result fits the budget |
| FindLongPage.BottomCutUnique | write_to_scrapbox/find_long_page.py:92-95 | the stopping point is unique: no earlier line is tried after one fails |
| FindLongPage.LastLineTooLong | write_to_scrapbox/find_long_page.py:92-95 | a last line that alone exceeds the budget gives "" |
| FindLongPage.BottomIsJoin | write_to_scrapbox/find_long_page.py:90-97 | a non-empty result is the "\n"-join of the taken suffix plus a final newline |
| FindLongPage.BottomReadsBack | write_to_scrapbox/find_long_page.py:90-97 | the quoted conversation splits back into the taken suffix followed by one empty part |
| FindLongPage.LongestPage | write_to_scrapbox/find_long_page.py:113-121 | fails as `buf[0]` does iff there are no pages. Otherwise returns a page's `(size, title, body)` that no page's tuple exceeds: the most tokens, ties broken by the greatest title, then body |
| FindLongPage.LongestUnique | write_to_scrapbox/find_long_page.py:119-121 | that tuple is unique, so it is what the descending sort puts first |
| FindLongPage.SortByIndexSpec | write_to_scrapbox/find_long_page.py:134 | `sorted(items, key=index)` is ordered by index, a permutation of the items, and keeps the input order among equal indices |
| FindLongPage.ItemLines | write_to_scrapbox/find_long_page.py:135-140 | an item yields six lines iff it has all four keys, and never more than six |
| FindLongPage.ItemsLayout | write_to_scrapbox/find_long_page.py:134-140 | with all keys present, item `i` occupies lines `6i` to `6i+5` of the topic lines |
| FindLongPage.EmitItems | write_to_scrapbox/find_long_page.py:132-143 | the loop appends the items' lines in order and stops after the partial lines of the first item missing a key |
| FindLongPage.Summarize | write_to_scrapbox/find_long_page.py:100-148 | fails iff there are no pages. Otherwise the prompt quotes exactly `take_bottom` of the longest page's lines with budget 4000. The result is one page titled "🤖": the four header lines for that page (`Header`, find_long_page.py:126-129), then the topic lines of the parsed reply. The reply is the "\n"-join of what `call_gpt` returns (`ReplyLines`, find_long_page.py:57-87): `["GPT Skipped"]` when skipped, nothing when the call raises, else the reply's lines. The topic lines are empty when the reply does not parse or an item lacks an index |

## Left out

- The tokenizer (`tiktoken`) is the parameter `size`. Nothing is claimed about the size of the formatted prompt: the scripts budget only the fragments' texts, not the digest formatting around them.
- The OpenAI calls (`openai.ChatCompletion.create`, `call_gpt`), `requests.get`, `json.load`, `pickle.load`, `os.path.getsize`, `dotenv`, `argparse` and all `print` output are I/O. They are parameters or inputs, as listed above.
- Years before 1000 are not valid dates in the model: what `strftime("%Y")` prints for them depends on the platform's C library, so `Scrapbox.TitleOrder` claims nothing about them.
- `random.shuffle` is replaced by the parameter `order`, any order of the keys. `datetime.now()` is replaced by `DateTime` parameters.
- `markdown_to_scrapbox` and `.strip()` are not part of this model: `utils` is not available. A reply enters as the converted text.
- `find_last_note_from_scrapbox` and `title_to_url` behind `--get-latest` are left out. `urllib.parse.quote` is library code, and `title_to_url` ignores its `project_name` argument. The note they fetch is the input `latest`, whose `None` means `--get-latest` was not given. So the `IndexError` of `bot_output[-1]` (recurrent_notes.py:114), raised when the API listing holds no "🤖20" title, is not modelled.
- The first `main` of generate_pages.py is left out: the second definition shadows it. The model call and footer code after `return []` in the second `main` are unreachable and not modelled.
- In find_long_page.py, the model does not represent three kinds of reply:
  - JSON values other than strings for `topic`, `summary`, `startline` and `endline`;
  - non-integer `index` values, such as strings, floats or mixed types;
  - lists holding non-objects.
  `decode` maps them to `Unparseable`, or to an item with the key missing. `read_note_from_scrapbox` in find_long_page.py is never called and is covered by `ApiUrl`.
- An empty fragment store fails whenever budget remains. The model follows the code:
  - recurrent_notes.py raises `RuntimeError` on an empty pool whatever the budget (`EmptyData`);
  - generate_pages.py fails on `keys.pop(0)` whenever budget remains after every key was taken (`KeysExhausted`).
