# Quiz reply parser

The program asks a chat model for a programming quiz and turns the reply, a
plain string, into a list of question records (main.py:60-110). Each record
has an `id`, the question text, four options `a`–`d` and a `correctAnswer`
that is one of `a`–`d` or `None`. The parse has four steps, and each step is
one module here:

- `Segmenter` cuts the reply into numbered items. This is the `re.findall` of
  main.py:64-65, written as a scanner over reply positions. An item begins at
  a line start of the form `<digits>.<whitespace>`. It runs up to the first
  newline after the head's whitespace run that is followed by such a head, or
  to the end of the reply. The head's `\s+` also takes newlines, so a head
  with nothing after it swallows the next line's head (`Segmenter.HeadSwallowsNewline`).
  Text before the first item is dropped.
- `OptionBlock` finds the `a) … b) … c) … d) …` block of an item. This is the
  `re.search` of main.py:70-71, written as a scanner that follows the
  pattern's own backtracking order. The match is the leftmost one. Options a
  to c may span lines and are lazy: each ends at the first newline from which
  the rest of the pattern still matches. Option d's leading `\s+` is taken
  whole, and option d stops at the first newline. These choices fix the match
  uniquely (`OptionBlock.FindOptionsIs`).
- `Marker` handles the `***x***` marker: the first match (main.py:87-91) and
  the one-pass left-to-right `re.sub` (main.py:94-97).
- `Text` holds Python's `str.strip` whitespace set, trimming and the decimal
  rendering of `i + 1`.
- `Quiz` assembles one record from one item (`ParseSegment`) and the list
  from the whole reply (`ParseQuiz`). It also holds the loop as written, as
  the methods `BuildRecord` and `BuildQuizData`. Both are proved equal to the
  functions.
- `Format` describes replies laid out the way the prompt asks (main.py:18-45).
  It proves that such a reply gives exactly the record it spells out. One
  instance of this is the prompt's own example (main.py:32-42).

The record's `id` is the index of its item among all items, plus 1. Items
without an option block are skipped and leave a gap in the ids; records are
not renumbered. The ids are dense when every item holds a block
(`Quiz.ParseQuizDense`). A gap appears exactly where a skipped item is followed
by one that gives a record (`Quiz.ParseQuizDenseIff`).

Marker removal is a single non-overlapping pass. It can therefore build a
new marker out of stars around a removed one (`Marker.RemoveMarkersCanLeaveMarker`).
Options are marker-free whenever their markers touch no other `*`
(`Quiz.ParseSegmentMarkerFree`).

## Model

| member | source | states |
|---|---|---|
| Segmenter.HeadEndSound | main.py:64 | the scanned head is digits, '.', then whitespace, and the whitespace run is maximal as `\s+` is greedy |
| Segmenter.HeadEndComplete | main.py:64 | wherever `\d+\.\s+` matches at k, the scanner finds a head at k |
| Segmenter.NextStartIsFirst | main.py:64 | the next item starts at the first position after p that is the reply start or a newline and is followed by a head; when there is none, no such position exists |
| Segmenter.SegmentEnd | main.py:64 | an item ends at the first newline followed by a head (the lookahead), or at the end of the text |
| Segmenter.SpansFromChain | main.py:64-65 | the items found from p lie in the reply in order, each ends on the newline just before the next one, and the last one runs to the end of the reply |
| Segmenter.Spans | main.py:64-65 | the items are non-empty, in document order and non-overlapping, and the last one reaches the end of the reply |
| Segmenter.PreambleDropped | main.py:64-65 | no item starts before the first one, so text before the first numbered line belongs to no item, and a reply with no numbered line has no items |
| Segmenter.SpansAreItems | main.py:64-65 | every span begins with a head and contains no boundary |
| Segmenter.Slices | main.py:65 | each item string is the reply between its span's bounds |
| Segmenter.SegmentsCoverReply | main.py:64-65 | the items joined with newlines give back the reply from the first item on |
| Segmenter.SegmentsBeginWithNumber | main.py:64-65 | every item begins with digits, '.' and whitespace |
| Segmenter.SingleItem | main.py:64-65 | a reply that begins with a head and has no boundary is one item, the reply itself |
| Segmenter.HeadSwallowsNewline | main.py:64-65 | in "1. \n2. x" the head's whitespace run takes the newline, so the second line starts no item and the reply is one item |
| OptionBlock.OpenAtSound | main.py:70 | the scanned opening of an option is a newline, whitespace, the label, ')' and a maximal whitespace run |
| OptionBlock.OpenAtComplete | main.py:70 | every opening that the pattern matches at a newline is found, with the same label and a whitespace run at least as long |
| OptionBlock.LineEnd | main.py:70 | option d ends at the first newline after its start, or at the end of the item |
| OptionBlock.RestSound | main.py:70 | a match found from a newline meets every step of the pattern, and option d ends at a newline or at the end |
| OptionBlock.RestComplete | main.py:70 | if the pattern matches from a newline, the scanner finds a match there |
| OptionBlock.SearchFromSound | main.py:70-71 | a block the search from m returns satisfies the whole pattern and ends option d at a newline or the end |
| OptionBlock.SearchFromComplete | main.py:70-71 | when a block matches from a newline at or after m, the search finds one that starts no later |
| OptionBlock.FindOptions | main.py:70-71 | a block it returns satisfies the whole pattern and ends option d at a newline or the end |
| OptionBlock.FindOptionsLeftmost | main.py:70-71 | whenever some block matches, a block is found, and it starts no later |
| OptionBlock.RestChosen | main.py:70 | from a newline, each option a-c either takes its whole `\s+` run and ends at the first newline from which the rest matches, or is empty after giving whitespace back and the rest matches from no later newline; option d takes its whole `\s+` run |
| OptionBlock.SearchFromChosen | main.py:70-71 | the block the search from m returns makes these lazy and greedy choices |
| OptionBlock.FindOptionsChosen | main.py:70-71 | the block found makes the lazy choice for a-c and takes option d's whitespace whole |
| OptionBlock.PrioritisedUnique | main.py:70 | two matches from the same newline that both make these choices are the same match |
| OptionBlock.FindOptionsIs | main.py:70-71 | a block that matches, starts at the leftmost matching newline and makes these choices is exactly the block found |
| OptionBlock.OptionDIsOneLine | main.py:70 | the captured text of option d holds no newline |
| Marker.FirstMarkerFrom | main.py:88-89 | the scan returns the first marker position at or after k, and None when there is none |
| Marker.FindMarker | main.py:88-91 | None exactly when there is no marker, and otherwise the letter of a marker in the text |
| Marker.FindMarkerAt | main.py:88-91 | a marker at p with no marker starting before it gives its letter |
| Marker.RemoveMarkers | main.py:94-97 | the removal only drops characters |
| Marker.RemoveMarkersNoMarker | main.py:94-97 | a text without markers is left unchanged |
| Marker.RemoveMarkersLeavesNoStar | main.py:94-97 | when every '*' belongs to a marker, the result has no '*' and no marker |
| Marker.RemoveMarkersCanLeaveMarker | main.py:94-97 | the single pass turns "**" + "***a***" + "*b***" into the marker "***b***" |
| Text.SpaceRunEndIsRun | main.py:64 | the whitespace run from k is whitespace and is maximal |
| Text.Trim | main.py:76 | the trimmed text is trimmed, and it is the slice left after dropping the leading and trailing whitespace |
| Text.TrimTrimmed | main.py:84 | trimming a trimmed text changes nothing |
| Text.DecimalValue | main.py:82 | the decimal rendering of n reads back as n |
| Text.DecimalInjective | main.py:82 | different numbers render differently |
| Quiz.StripOrdinal | main.py:79-84 | the question text left after the number is stripped is trimmed |
| Quiz.StripOrdinalOwnNumber | main.py:82-84 | a question beginning "{i+1}." loses exactly that prefix and is trimmed |
| Quiz.StripOrdinalOtherNumber | main.py:82-84 | a question numbered with a number other than i + 1 keeps its number and is only trimmed |
| Quiz.Captured | main.py:76 | the four captured options are trimmed |
| Quiz.CleanOption | main.py:94-97 | the cleaned option is trimmed and uses only characters of the original |
| Quiz.ParseSegment | main.py:67-110 | an item gives no record exactly when it has no option block; otherwise its record's id is its index + 1 |
| Quiz.ParseSegmentSkips | main.py:70-74 | an item gives a record exactly when an a) b) c) d) block matches somewhere in it |
| Quiz.ParseSegmentAnswer | main.py:87-91 | the answer is None exactly when the item has no marker; otherwise it is the letter of the item's first marker, question text included |
| Quiz.ParseSegmentOptions | main.py:76-97 | the options are the trimmed captures with markers removed and trimmed again; without a marker in the item they are the trimmed captures unchanged |
| Quiz.ParseSegmentTrimmed | main.py:70-97 | the question and the four options are trimmed, and option d holds no newline |
| Quiz.CleanLeavesNoMarker | main.py:94-97 | cleaning an option whose stars all belong to markers leaves no '*' and no marker |
| Quiz.ParseSegmentMarkerFree | main.py:93-97 | the options are marker-free when their captured markers touch no other '*' |
| Quiz.CollectGrows | main.py:67-100 | the records of the first m items are a prefix of those of the first n items, m <= n: the list is only appended to |
| Quiz.ParseQuizShape | main.py:60-110 | there are at most as many records as items; each record is the record of the item its id names; the ids strictly increase |
| Quiz.ParseQuizComplete | main.py:67-74 | item i has a record with id i + 1 exactly when a block matches in it, whatever the items before it held |
| Quiz.ParseQuizDense | main.py:67-101 | when every item holds a block, there is one record per item and the ids are 1, 2, ..., n |
| Quiz.ParseQuizGap | main.py:67-101 | a skipped item followed by one that gives a record leaves a gap: the ids are not 1, 2, ... |
| Quiz.ParseQuizNoGap | main.py:67-101 | when no skipped item is followed by one that gives a record, the ids are 1, 2, ..., n |
| Quiz.ParseQuizDenseIff | main.py:67-101 | the ids are 1, 2, ... exactly when no skipped item is followed by one that gives a record |
| Quiz.ParseQuizRecord | main.py:67-110 | every record has a valid id, trimmed texts and a one-line option d, and its answer is the first marker of its own item |
| Quiz.BuildRecord | main.py:67-110 | the loop body, with its step-by-step reassignment of question and options, yields the record ParseSegment defines, or a skip |
| Quiz.BuildQuizData | main.py:60-110 | the loop that appends to quiz_data returns exactly ParseQuiz of the reply |
| Format.ReplySegments | main.py:64-65 | a reply in the prompt's layout is one item |
| Format.ReplyOptions | main.py:70-71 | the option block of such a reply is the four option lines it spells out |
| Format.ReplyCaptured | main.py:70-76 | the captured options of such a reply are its option texts |
| Format.ReplyQuestion | main.py:79-84 | the question of such a reply, with "1." stripped, is its question text |
| Format.ReplyMarker | main.py:88-91 | the answer of such a reply is the letter on its marker line |
| Format.ReplyParses | main.py:60-110 | a reply in the layout gives exactly one record: id 1, its question, its options, its marked letter |
| Format.PromptExample | main.py:32-42 | the prompt's example gives one record with id 1, options "10, 20" / "20, 10" / "20, 20" / "10, 10" and answer b |

## Left out

- Loading `.env` and the `ValueError` for a missing key (main.py:8-12) are environment I/O.
- The Mistral client and the `chat.complete` call (main.py:14-15, 47-57) are a foreign library and the network. The reply is an arbitrary input string here.
- The prompt literal (main.py:18-45) is used only as data, for its example (`Format.PromptExample`).
- `json.dumps`, the console prints and the write to `coding_quiz.json` (main.py:113-123) are output glue.
- The catch-all `except Exception` handler (main.py:125-126) only reports errors.
- `\d` is modelled as the ASCII digits only. Python's `re` also accepts every Unicode decimal digit for `\d`.
- `\s` and `str.strip` are both modelled with Python's whitespace set over `char`. No general regular-expression engine is modelled, only the three fixed patterns as scanners.
- Marker.RemoveMarkers: its own contract states only that characters are dropped. Its exact behaviour is given by `Marker.RemoveMarkersNoMarker`, `Marker.RemoveMarkersLeavesNoStar` and `Marker.RemoveMarkersCanLeaveMarker`.
- Format.ReplyParses: it covers a sufficient layout, not every reply. The question is numbered 1, options are indented by three spaces, and there is no '*' in the question or options. No later question line may begin with whitespace, a digit or the letter a.
- Python's dictionaries are modelled as the `Quiz.Record` and `Quiz.Choices` datatypes, and the list `quiz_data` as a sequence.

Where a plain-language reading of the program and its code differ, the model follows the code:

- Ids have gaps where a skipped item is followed by one that gives a record.
- An item's head `\d+\.\s+` can run across a newline, so "1. " on its own line followed by "2. foo" is one item, not two.
- Cleaning an option can leave a marker behind.
