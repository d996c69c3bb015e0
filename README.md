# AI-Enhanced RFP Estimator: keyword resolution and labor-cost model

This project models, in Dafny, the two pieces of logic in the RFP estimator's
Streamlit app (`streamlit_app.py`) that decide anything:

- **Task keyword resolution** (`extract_project_type`). The text is lower-cased.
  The function then returns the first of five fixed task keywords (`drilling`,
  `installation`, `exploration`, `production`, `maintenance`, tried in that
  order) that occurs in the text as a substring. If none occurs, it returns
  `None`.
- **Labor-cost estimation**. The role rows for a keyword come from the
  `standard_task_roles` table. A `total_cost` column is added to them:
  `count * duration_days * daily_rate` for each row. The column is then summed
  to give the estimated total. The sidebar assistant shows this total. The
  RFP upload button also computes it for the document summary. The
  "Estimate Labor Cost" page does the same column assignment and sum over its
  own table.

Modules:

- `Text`: an ASCII model of `str.lower` (`Lower`, `LowerString`) and
  Python's substring test `p in s` as the recursive predicate `IsSubstring`.
  `IsSubstring` is proved equal to "there is an index where `p` occurs".
- `ProjectType`: the keyword list `Keywords`, the generic first-match scan
  `FirstMatch`, and `ExtractProjectType`. Lemmas prove that the answer is a
  keyword, that it occurs in the text, and that no earlier keyword occurs.
  They also prove that the answer is `None` exactly when no keyword occurs,
  that the answer is unique, and that it ignores case. Concrete examples are
  proved too.
- `LaborCost`: role rows (`Row`), rows with their total (`PricedRow`), the
  column derivation `AddTotals` and the column sum `Aggregate`. Lemmas prove
  that the total is not negative and that it does not depend on row order.
  The class `RoleFrame` is the DataFrame. Its `total_cost` array is assigned
  in place by `AssignTotalCost` and summed by `SumTotalCost`. Both methods are
  proved against `AddTotals` and `Aggregate`. The frame's invariant says the
  column never drifts from the row values it is derived from.
- `RoleStore`: the meaning of the role query
  (`WHERE LOWER(task_keyword) = project_type.lower()`), as the filter
  `RolesFor` over a table given as a parameter. Its contract also says how
  many times each row is returned: once per matching table entry. A lemma
  proves that it returns the same rows, with the same multiplicities, in
  whatever order the table is stored.
- `Assistant`: the specification `EstimateFor` of the text-to-estimate flow.
  The methods `Summarize` (RFP upload) and `Assist` (sidebar) run that flow
  with a `RoleFrame` and are proved to produce exactly `EstimateFor`.
- `Multisets`, `Wrappers`: a reordering fact, and `Option`.

Integers are exact (`int`). The source does not validate the numeric columns,
so rows may hold negative values. Non-negativity is a premise of the lemmas
that need it, not a precondition of the operations.

In `streamlit_app.py` the task keywords are a fixed list in the code, and
the substring scan is the only matching the code does.

## Model

| member | source | states |
|---|---|---|
| `ProjectType.FirstMatch` | streamlit_app.py:41-44 | the result occurs in the searched text, is one of the words, and no earlier word occurs; it is None exactly when no word occurs |
| `ProjectType.FirstMatchUnique` | streamlit_app.py:41-43 | a word that occurs, with no earlier word occurring, is the result: the first-match answer is unique |
| `ProjectType.ExtractProjectType` | streamlit_app.py:39-44 | the result is one of the five keywords and occurs in the lower-cased text, no earlier keyword occurs, it is None exactly when no keyword occurs, and empty text gives None |
| `ProjectType.ExtractProjectTypeCharacterised` | streamlit_app.py:40-44 | both directions: the result is `w` exactly when `w` is the earliest keyword in list order that occurs in the lower-cased text |
| `ProjectType.ExtractProjectTypeIgnoresCase` | streamlit_app.py:40-42 | the result for a text equals the result for its lower-cased form |
| `ProjectType.ExtractProjectTypePrefersListOrder` | streamlit_app.py:40-43 | "production and drilling" gives "drilling": list order wins over position in the text |
| `ProjectType.ExtractProjectTypeUpperCase` | streamlit_app.py:42-43 | "Offshore DRILLING rig" gives "drilling": upper-case keywords are found |
| `ProjectType.NoKeywordWithoutDOrT` | streamlit_app.py:40-43 | a lower-cased text without the letters 'd' and 't' contains none of the five keywords |
| `ProjectType.ExtractProjectTypeNone` | streamlit_app.py:41-44 | "Pipeline survey" gives None |
| `Text.LowerString` | streamlit_app.py:42 | `text.lower()` keeps the length, lowers each character on its own, and leaves no upper-case ASCII letter |
| `Text.IsSubstring` | streamlit_app.py:42 | `word in text`: a word longer than the text never occurs in it, and the empty word always does |
| `Text.IsSubstringIffOccurs` | streamlit_app.py:42 | the recursive model of `word in text` holds exactly when the word occurs at some index of the text |
| `Text.LowerStringIdempotent` | streamlit_app.py:42 | lower-casing an already lower-cased text changes nothing |
| `Text.MissingCharNotSubstring` | streamlit_app.py:42 | a word with a character the text lacks is not a substring of the text |
| `LaborCost.AddTotals` | streamlit_app.py:64 | adding `total_cost` keeps the number and order of rows and every role, count, duration and rate; each row's total is count * duration_days * daily_rate |
| `LaborCost.Aggregate` | streamlit_app.py:85 | the column sum is not negative when no row total is negative |
| `LaborCost.AggregateAppend` | streamlit_app.py:242 | the sum over two tables put together is the sum of their sums |
| `LaborCost.Cost` | streamlit_app.py:64 | a row's `count * duration_days * daily_rate` is not negative when no multiplicand is negative, and is zero when any multiplicand is zero |
| `LaborCost.AggregateNonNegative` | streamlit_app.py:106 | the estimated total of rows with non-negative multiplicands is not negative |
| `LaborCost.AggregatePermutation` | streamlit_app.py:62-65 | two tables holding the same rows in different orders have the same estimated total |
| `LaborCost.AggregateWithout` | streamlit_app.py:242 | a table's total is one row's cost plus the total of the other rows |
| `LaborCost.RoleFrame.constructor` | streamlit_app.py:62-63 | a frame holds the queried rows and has no `total_cost` column yet |
| `LaborCost.RoleFrame.Priced` | streamlit_app.py:64 | while the frame is valid, its rows with their `total_cost` values are exactly the priced table |
| `LaborCost.RoleFrame.AssignTotalCost` | streamlit_app.py:240 | assigning the column leaves a fresh `total_cost` array in the frame whose values are the per-row costs, with the frame invariant kept |
| `LaborCost.RoleFrame.SumTotalCost` | streamlit_app.py:242 | the front-to-back sum of the `total_cost` column equals the recursive aggregate of the priced rows |
| `RoleStore.Matches` | streamlit_app.py:60 | an entry stored under the project type itself matches, and a matching keyword has the project type's length |
| `RoleStore.MatchesIgnoresCase` | streamlit_app.py:60 | lower-casing either the stored keyword or the project type does not change whether an entry matches |
| `RoleStore.RolesFor` | streamlit_app.py:57-62 | a row is returned exactly when some entry whose lower-cased keyword equals the lower-cased project type holds it; each row is returned as many times as there are such entries; there are no more rows than entries |
| `RoleStore.RolesForKeepsDuplicates` | streamlit_app.py:57-62 | a matching entry stored twice is returned twice |
| `RoleStore.RolesForAppend` | streamlit_app.py:57-62 | querying two tables put together gives the two query results put together |
| `RoleStore.RolesForPermutation` | streamlit_app.py:57-62 | the query returns the same rows with the same multiplicities whatever order the table is stored in |
| `Assistant.EstimateFor` | streamlit_app.py:79-87 | NoKeyword exactly when no keyword occurs; otherwise the keyword is the detected one, NoRoles exactly when the query returns no rows, and an estimate holds the priced query rows and their sum |
| `Assistant.EstimatedRowsFromTable` | streamlit_app.py:81-84 | every priced row of an estimate is a table entry for the detected keyword and carries that entry's cost |
| `Assistant.EstimateForIgnoresCase` | streamlit_app.py:79 | the estimate for a text equals the estimate for its lower-cased form |
| `Assistant.EstimateForTotalNonNegative` | streamlit_app.py:85 | with no negative count, duration or rate in the table, an estimated total is not negative |
| `Assistant.EstimateForIgnoresStoreOrder` | streamlit_app.py:81-85 | reordering the role table changes neither the kind of reply nor the estimated total |
| `Assistant.Summarize` | streamlit_app.py:100-106 | the upload path, run with a role frame, produces exactly the specified estimate |
| `Assistant.Assist` | streamlit_app.py:78-85 | the sidebar shows nothing for an empty question and otherwise produces exactly the specified estimate |

## Left out

- Snowflake connections, credentials and queries (streamlit_app.py:19-37, 47-62, 183-222, 229-238) are not modelled. The role table is a parameter. The meaning of the role query is modelled by `RoleStore.RolesFor`; the SQL text is not.
- A failed role fetch returns an empty DataFrame (streamlit_app.py:66-68). It is not modelled as its own case. Passing a table with no matching rows gives the same reply, `NoRoles`.
- The `st.cache_data(ttl=600)` caching (streamlit_app.py:18, 46) is not modelled. The model reads one fixed table. For up to 600 seconds the source serves a stored result for the same project type. So changes to the role table in that time are not seen, and an empty frame cached after a failed fetch keeps `NoRoles` showing. Neither effect is modelled.
- `Text.LowerString` models `str.lower` and SQL `LOWER` for ASCII letters only. Unicode case mapping is not modelled. This includes mappings that change the length of a string.
- `LaborCost.AddTotals`: pandas computes the columns in int64 or float64. The model uses exact integers, so int64 overflow and floating-point rounding are not modelled. The `:,.2f` money formatting is not modelled either.
- LaborCost.Row: every count, duration and rate is a present integer. A NULL in one of those columns becomes NaN in pandas. That row's `total_cost` is then NaN (streamlit_app.py:64, 240), and `.sum()` skips NaN (streamlit_app.py:85, 106, 242). So the source's total silently leaves such a row out. The model has no missing values and does not capture this.
- DOCX reading and writing (streamlit_app.py:14-16, 107-136, 246-267) are not modelled. They are calls into an external library plus output formatting. The debug `print` at streamlit_app.py:104 is left out as well.
- The Streamlit UI is not modelled: the page selector, widgets, the hard-coded dashboard table and the data editor. The reply constructors in `Assistant.Reply` stand for the messages shown; the message texts are not modelled.
- The "Extract Labor Roles" and "Estimate Labor Cost" pages cannot be reached from the page selector. Only their arithmetic is modelled, by `RoleFrame.AssignTotalCost` and `RoleFrame.SumTotalCost`.
- The FAQ table is loaded (streamlit_app.py:71) but never queried, so it is not modelled. `difflib` and `re` are imported but never used.
