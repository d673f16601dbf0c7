# Flashcard session model

A Dafny model of the session logic of the vocabulary flashcard app ("语言 Master"), whose
`App` component lives in `streamlit_app.py` (a React component despite the file name). The
app shows one word card at a time from a deck, turns the card over on a click, steps
through the deck with "next" and "previous" buttons that wrap around, loads a bundled deck
per language (`words_ko.json`, `words_th.json`, `words_ja.json`), accepts a deck as an
uploaded JSON file, and asks a generative-text service for an enrichment of the current
word (etymology, mnemonic, dialogue), retrying failed requests with exponential backoff.

Modules:

- `Js` (`js.dfy`): the JavaScript number semantics the session relies on. The cursor is a
  `Num`, an integer or NaN, because `x % 0` on an empty deck yields NaN. `Rem` is
  JavaScript's truncating `%`, which keeps the sign of the dividend.
- `Deck` (`deck.dfy`): word entries, the languages, the starter deck, the two placeholder
  cards, the payloads a deck can be replaced with, and `CurrentWord`, the card on display.
- `Navigation` (`navigation.dfy`): the cursor arithmetic of "next" and "previous".
- `Gemini` (`gemini.dfy`): the API-key guard of `callGemini` and the retry schedule of
  `fetchWithRetry`, as pure functions. What each attempt meets is an input `reply(k)`.
- `Flashcards` (`session.dfy`): the class `Session`, holding the component's state fields.
  Each method is one user event or one settled asynchronous result, followed by the effect
  that drops the cached enrichment when the cursor value changed. Every method keeps the
  cursor invariant `CursorOk`: on a non-empty deck the cursor names a card; on an empty
  deck it is 0 (right after the upload) or NaN (after a button press). The class also holds
  the enrichment request in flight as the `Run` it will settle as. On mount the deck-load
  effect runs once for Korean, so the event that follows construction is
  `DeckLoaded(Ko, ...)`, when that fetch settles.

Behaviour of the code that the model keeps as written:

- An uploaded empty array is accepted. "next" or "previous" on the empty deck turns the
  cursor into NaN, and it stays NaN until a deck is loaded or uploaded. The display then
  falls back to the "无数据 / 请导入" placeholder.
- A failed deck load does not reset the flip flag.
- The enrichment is dropped only when the cursor value changes. An upload, or a failed
  load, while the cursor is already 0 keeps the enrichment of the previous deck's first
  card. "next" on a one-card deck keeps it too.
- Pressing the enrichment button with no card at the cursor throws before the request is
  made. The in-flight flag then stays set.
- A reply without text parses as `{}`, which is truthy. It becomes an enrichment whose
  keys are all missing.

## Model

| member | source | states |
|---|---|---|
| Js.Rem | streamlit_app.py:178-183 | JavaScript `%` for a positive divisor: identity below the divisor, periodic above it, odd in the dividend, and the result keeps the dividend's sign and stays below the divisor in size |
| Navigation.NextIndex | streamlit_app.py:176-179 | on an in-range cursor, "next" gives the following card, or card 0 after the last; on an empty deck or a NaN cursor it gives NaN |
| Navigation.PrevIndex | streamlit_app.py:181-184 | on an in-range cursor, "previous" gives the preceding card, or the last card before card 0; on an empty deck or a NaN cursor it gives NaN |
| Navigation.NextPrevInverse | streamlit_app.py:176-184 | both steps stay inside the deck, and each undoes the other |
| Navigation.PrevUndoesNext | streamlit_app.py:176-184 | "previous" after "next" returns to the starting card |
| Navigation.NextUndoesPrev | streamlit_app.py:176-184 | "next" after "previous" returns to the starting card |
| Navigation.MovesIffSeveralCards | streamlit_app.py:176-184 | either step moves the cursor exactly when the deck has more than one card |
| Navigation.NextTimesAdvances | streamlit_app.py:176-179 | pressing "next" k times moves the cursor to (i + k) mod n |
| Navigation.NextCycle | streamlit_app.py:176-179 | pressing "next" n times on an n-card deck returns to the starting card, and no smaller positive number of presses does |
| Navigation.EmptyDeckCursorIsNaN | streamlit_app.py:176-184 | on an empty deck any number of "next" presses, or a "previous" press, leaves the cursor NaN |
| Flashcards.CurrentWordShown | streamlit_app.py:186 | when the cursor invariant holds, the card shown is the deck's card at the cursor whenever the deck is non-empty, and it is the placeholder exactly when the deck is empty |
| Flashcards.EnrichmentDroppedOnMove | streamlit_app.py:152-154 | a cached enrichment is dropped by "next" or "previous" exactly when the deck has more than one card, and by a reset of the cursor to 0 exactly when the cursor was not already 0 |
| Flashcards.Session.constructor | streamlit_app.py:31-46 | initial state: Korean, the two starter cards, cursor 0, face up, no enrichment, nothing in flight, empty API key, no pending request; the cursor invariant holds |
| Flashcards.Session.SelectLanguage | streamlit_app.py:227 | records the chosen language; reports that the deck-load effect reruns exactly when the language changed |
| Flashcards.Session.SetApiKey | streamlit_app.py:207 | the key held in memory is the one typed |
| Flashcards.Session.DeckLoaded | streamlit_app.py:51-81 | a non-empty array replaces the deck and resets cursor, flip and enrichment; an empty array or other document changes nothing; a failed fetch installs the single "not found" card for that language and sets the cursor to 0, keeps the flip, and drops the enrichment exactly when the cursor value changed (else keeps it); the cursor invariant is kept |
| Flashcards.Session.Upload | streamlit_app.py:156-174 | any parsed array, empty included, replaces the deck and sets the cursor to 0 and face up, and drops the enrichment exactly when the cursor value changed (else keeps it); no file, unparsable text or a non-array changes nothing; the cursor invariant is kept |
| Flashcards.Session.Next | streamlit_app.py:176-179 | cursor becomes (i + 1) mod n on a non-empty deck and NaN on an empty one; the card shows face up; the enrichment is dropped exactly when the cursor moved; the deck is untouched and the cursor invariant is kept |
| Flashcards.Session.Prev | streamlit_app.py:181-184 | cursor becomes (i - 1 + n) mod n on a non-empty deck and NaN on an empty one; the card shows face up; the enrichment is dropped exactly when the cursor moved; the deck is untouched and the cursor invariant is kept |
| Flashcards.Session.Flip | streamlit_app.py:246 | the flip flag is negated; deck, cursor and enrichment are unchanged |
| Flashcards.Session.StartAnalysis | streamlit_app.py:126-143 | ignored while a request is in flight; otherwise marks one in flight and drops the enrichment, then sends `callGemini` with the current API key about the card at the cursor and records the run it settles as, or crashes with the flag left set and nothing pending when there is no card there |
| Flashcards.Session.FinishAnalysis | streamlit_app.py:142-149 | the pending run settles: a truthy reply becomes the enrichment, a falsy reply or a rejection keeps the old one, and the in-flight flag is cleared in every case |
| Flashcards.EmptyKeyLeavesNoAnalysis | streamlit_app.py:89-149 | with no API key, pressing the enrichment button and letting the request settle leaves no enrichment, whatever the network would answer |
| Gemini.Schedule | streamlit_app.py:114-116 | the k-th wait of a schedule starting at counter c is 2^(c+k) * 1000 ms |
| Gemini.FetchWithRetry | streamlit_app.py:97-123 | at least one attempt, and at most 6 when starting from counter 0; every attempt but the last threw; the waits follow the schedule; the request resolves with the last attempt's reply, and rejects exactly when the last attempt threw, which happens only once the counter has reached 5 |
| Gemini.CallGemini | streamlit_app.py:89-124 | with an empty API key nothing is attempted and the call resolves to null; otherwise 1 to 6 attempts are made, starting from counter 0 |
| Gemini.GeometricWait | streamlit_app.py:114-117 | k consecutive waits starting at counter c add up to (2^(c+k) - 2^c) * 1000 ms |
| Gemini.TotalWait | streamlit_app.py:97-121 | the waits of a whole request add up to (2^(last counter) - 2^(first counter)) * 1000 ms |
| Gemini.AllAttemptsFail | streamlit_app.py:113-119 | when every attempt throws: 6 attempts, waits of 1000, 2000, 4000, 8000 and 16000 ms (31000 ms in all), and the error is rethrown |
| Gemini.SucceedsAt | streamlit_app.py:97-121 | when the first j attempts throw and attempt j (j at most 5) gets a reply, the request resolves to that reply after j + 1 attempts, having waited the first j delays of the schedule |

## Left out

- Rendering, CSS, the settings overlay and its open/close flag (lines 188-326): presentation only.
- `viewMode` and `score` (lines 38-39): declared but never updated in this file.
- The progress bar (line 239): floating-point display arithmetic.
- Speech synthesis (lines 83-87): a browser API call.
- The network fetch of `words_<lang>.json` and the HTTP request to the generative-text service (lines 55-59, 99-112): I/O. Only their outcomes are modelled, as inputs: `Fetched` for the deck and `reply(k)` for each attempt.
- `FileReader` and `JSON.parse` of the upload (lines 159-172): the parsed result is an input (`Upload`).
- The `setTimeout` waits (line 116): the waits are integers in milliseconds; no time passes.
- The `alert` shown when no API key is set (line 91), the console logging, and the prompt text (lines 132-140).
- The `LANGUAGE_CONFIG` table (lines 24-28): only each language's key is modelled, as it names the bundled file. Display names, speech codes and prompt roles are static strings.
- JSON array elements that are not word objects (for example `null`): the model's decks hold word entries only. So the fallback at line 186 is modelled for a cursor outside the deck, not for a falsy element.
- Asynchronous interleaving: each event and each settled result is one atomic step. The model allows at most one enrichment request in flight, and checks the guard at line 127 against the current flag. A second request started by a stale closure that still reads an old `isAnalyzing` is not expressible. An old language's deck load settling after a newer one is expressible, by the order of `DeckLoaded` calls.
- Navigation.NextIndex: the cursor is an unbounded integer rather than a double. Deck sizes stay far below 2^53, so the two agree.
