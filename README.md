# Mailchimp contact reconciliation, modelled in Dafny

`mailchimp_update.py` reads a spreadsheet of students or employees and
reconciles it with a Mailchimp audience. This model covers the engine behind the
GUI, in these parts:

- **`safe_str`** cleans a cell value. It is modelled in `cells.dfy`.
- **`cleancontact`** turns a row into a contact or rejects it. Along the way it:
  - lower-cases the column names;
  - applies the Dutch and English column aliases;
  - picks the e-mail column;
  - logs missing names;
  - joins the prefix onto the last name;
  - validates the address.
- **`is_valid_email`** checks the address syntax (`email.dfy`).
- **`process_contacts`** is the loop over rows. It:
  - looks every kept contact up by the md5 hash of its lower-cased address;
  - queues a POST for an unknown member;
  - queues a PATCH for a known member when updates are switched on;
  - submits the non-empty batches at the end.
- **`start_processing`** starts a run.
- **`check_batch_status`** polls the submitted batches.

The model is split into modules:

- `strings.dfy` (`Strings`): Python's `strip`, ASCII `lower`, `split` and `join` on strings, with their laws.
- `pydict.dfy` (`PyDict`): a Python dict of strings as an insertion-ordered list of entries.
- `normalizer.dfy` (`Normalizer`): what `cleancontact` computes, as functions on a row, with its properties.
- `remote.dfy` (`Remote`): the member record and the write operations. It also holds the batch endpoint as a class that records every submitted batch and every status request.
- `reconcile.dfy` (`Reconcile`): one pass of the loop (`Step`) and the loop (`Run`) as functions of a state holding:
  - `fouten`;
  - both batches;
  - `cnt`, `nieuw_lid` and `update_lid`;
  - the carried-over language;
  - the failure that stops a run.
- `updater.dfy` (`Updater`): the updater object as a class, with the fields the source updates in place:
  - the error log, both batches, the batch ids, the contact type and the debug flag.

  Its methods build the cleaned dict step by step and run the loop, and are proved against the functions above.

## Model

| member | source | states |
|---|---|---|
| Cells.SafeStr | mailchimp_update.py:522-529 | a non-empty result is the stripped text of a present value and is not a null word; the result never starts or ends with whitespace |
| Cells.SafeStrEmpty | mailchimp_update.py:522-529 | the result is "" exactly for None, blank text, and "nan", "none", "null" in any letter case |
| Cells.SafeStrIdempotent | mailchimp_update.py:522-529 | cleaning an already cleaned value returns it unchanged |
| Email.IsValidEmailMatchesPattern | mailchimp_update.py:571-584 | the check accepts exactly the non-empty inputs whose trimmed, lower-cased text is a local part of allowed characters, one '@', and '.'-separated labels as the regular expression describes |
| Email.AcceptedShape | mailchimp_update.py:571-584 | an accepted address is non-empty; its normalised form has exactly one '@'; the local part is non-empty and uses allowed characters; every domain label is 1 to 63 characters long and neither starts nor ends with '-' |
| Email.CaseInsensitive | mailchimp_update.py:575-584 | two addresses that are equal up to letter case get the same verdict |
| Normalizer.LoweredGet | mailchimp_update.py:534 | after lower-casing the column names, a name held by several columns has the cleaned value of the last of them |
| Normalizer.AliasPrecedence | mailchimp_update.py:537-547 | voorvoegsels is taken from voorvoegsel, else prefix, else itself; roepnaam from voornaam, else voorletters, else first name, else itself; achternaam from naam, else name, else last name, else itself; every other field is unchanged |
| Normalizer.AliasedKeepsEmail | mailchimp_update.py:537-551 | the aliases never change the value the e-mail search finds |
| Normalizer.EmailFromFirstColumn | mailchimp_update.py:534-550 | the first column, in row order, whose lower-cased, hyphen-free name contains "email" picks the key; the e-mail value is the cleaned value of the last column whose name equals that column's name up to case; without such a column nothing is found |
| Normalizer.EmailFromFirstColumnDistinct | mailchimp_update.py:534-550 | when no two column names are equal up to case, the e-mail is the cleaned value of that first matching column itself |
| Normalizer.CleanedEmailIsRowEmail | mailchimp_update.py:534-551 | the address stored in e-mailadres is the cleaned value of the row's e-mail column, or "" when there is none |
| Normalizer.RejectedIffInvalid | mailchimp_update.py:565-569 | a row is kept exactly when its e-mail passes is_valid_email; a kept contact carries that address; a rejected row's last log entry is the invalid-address error with the row index |
| Normalizer.NoEmailColumnRejected | mailchimp_update.py:550-567 | a row without an e-mail column is rejected |
| Normalizer.WarningsAndPrefix | mailchimp_update.py:553-567 | the row's log is the first-name warning if that name is empty, then the last-name warning if that one is, both citing the address, then the error only if the row is rejected; a kept contact has the aliased first name and, with a prefix, the last name as prefix, one space, last name |
| Remote.BatchService.Submit | mailchimp_update.py:491-492 | a submitted batch is recorded as a new pending job, and its id is that job's position |
| Remote.BatchService.Poll | mailchimp_update.py:608-613 | every request is recorded with its answer; a request for an unknown id fails, one for a submitted batch may fail, and an answer is always that job's status |
| Reconcile.CleanedAt | mailchimp_update.py:318-320 | the row at position i is cleaned with index i |
| Reconcile.Dispatch | mailchimp_update.py:339-459 | a kept contact adds the create operation of an unknown member or, with updates on, the update path of a known one; the counters keep track of the batch lengths, and the update batch only grows |
| Reconcile.Step | mailchimp_update.py:318-459 | after a failure nothing changes; otherwise a row counts once, appends its log, adds its create operation if any and its update path if any; the counters keep track of the batch lengths |
| Reconcile.StepRejects | mailchimp_update.py:320-325 | a rejected row only appends its log and counts |
| Reconcile.StepCreates | mailchimp_update.py:352-393 | an unknown member adds exactly one create operation: POST to /lists/id/members/, operation id create_batch, status subscribed, the spreadsheet names, the contact type, and the type, weekly and Nederlands interests all true; nieuw_lid grows by one, and nothing else but cnt and the log changes |
| Reconcile.StepSkipsExisting | mailchimp_update.py:397-400 | with updates off, a known member changes nothing but cnt and the log |
| Reconcile.StepUpdates | mailchimp_update.py:406-459 | with updates on, a known member adds exactly one PATCH to /lists/id/members/ plus the md5 of the lower-cased address. It carries operation id update_batch and no status. It sends the remote names, the spreadsheet name where a remote one is null, and "" where a remote one is absent, with the type and language interests. The language is English for a true flag, Nederlands for a false one, else the previous choice. update_lid grows by one |
| Reconcile.StepFails | mailchimp_update.py:422-428 | a row stops the run only when it is a known member with updates on and the English interest is missing, or is not a boolean before any language was chosen; it adds no operation |
| Reconcile.SameMemberForCase | mailchimp_update.py:340 | addresses equal up to case get the same verdict and the same member path |
| Reconcile.LanguageFollowsFlag | mailchimp_update.py:424-428 | with a boolean English flag the language is English exactly when the flag is true and Nederlands exactly when it is false |
| Reconcile.RunStopsAtFailure | mailchimp_update.py:318-459 | once a row fails, the remaining rows change nothing |
| Reconcile.RunCounts | mailchimp_update.py:313-327 | at the end nieuw_lid and update_lid equal the growth of the create and update batches; the update batch only grows; a completed run has counted every row, rejected ones included |
| Reconcile.RunBuilds | mailchimp_update.py:318-459 | a completed run appends the create operations, the update paths and the row logs in row order |
| Reconcile.RunWithoutUpdates | mailchimp_update.py:397-400 | with updates off a run always completes and never touches the update batch |
| Updater.LowerKeys | mailchimp_update.py:534 | the loop builds the lower-cased dict of cleaned values |
| Updater.ApplyAliases | mailchimp_update.py:537-547 | the alias statements in place give the aliased dict |
| Updater.ApplyEnglishAliases | mailchimp_update.py:537-540 | the English alias statements give the English aliasing |
| Updater.ApplyDutchAliases | mailchimp_update.py:542-547 | the Dutch alias statements give the Dutch aliasing |
| Updater.FindEmailValue | mailchimp_update.py:550 | the scan returns the value of the first key naming the e-mail column, or nothing |
| Updater.Updater.CleanContact | mailchimp_update.py:531-569 | cleaning a row in place appends exactly the row's log to fouten and returns the row's contact, or nothing for a rejected row |
| Updater.Updater.FinishContact | mailchimp_update.py:549-569 | the steps after the aliases append the warnings and the error, and return the contact of the aliased dict |
| Updater.Updater.FillMissingNames | mailchimp_update.py:553-560 | an empty first or last name is set to "" and logged, first name first; the address, names and prefix read the same afterwards |
| Updater.Updater.Enqueue | mailchimp_update.py:339-459 | the lookup and the queueing of a kept contact change the batches and counters as the dispatch does |
| Updater.Updater.ProcessRow | mailchimp_update.py:318-459 | one pass of the loop changes fouten, the batches and the counters as one step over the cleaned row |
| Updater.Updater.CountAndQueue | mailchimp_update.py:321-459 | after cleaning, counting and queueing change the state as one step |
| Updater.Updater.ProcessRows | mailchimp_update.py:313-464 | the loop leaves fouten, the batches, the counters and the failure as the run over the cleaned rows does |
| Updater.Updater.SubmitBatches | mailchimp_update.py:473-499 | the ids are cleared; in debug mode nothing is submitted; otherwise the create batch is submitted if nieuw_lid > 0 and then the update batch if update_lid > 0, and the ids are those of the new jobs |
| Updater.Updater.ProcessContacts | mailchimp_update.py:297-516 | a run gives the state of the run over the cleaned rows. A failed run submits nothing and leaves the ids alone. A completed run clears the ids; outside debug mode it submits the non-empty batches, create first, and keeps their ids |
| Updater.Updater.StartProcessing | mailchimp_update.py:273-295 | without rows nothing changes. Otherwise the chosen contact type and mode are set, and the log and batches start empty. The run over the cleaned rows follows. A failed run submits nothing and keeps the old ids. Outside debug mode a completed run submits exactly the non-empty batches, create before update, and keeps the ids of the new jobs. In debug mode it submits nothing and sets no id |
| Updater.Updater.CheckBatchStatus | mailchimp_update.py:597-624 | debug mode makes no request. Otherwise the set ids are polled in order, create first, and polling stops at the first failed request. The check fails exactly when a request failed, which an unknown id always does. Otherwise every set id was polled and the label shows their statuses joined by " \| ", or "No batch operations found" |

## Left out

- The tkinter GUI: widgets, the log window, the progress bar and the scheduled label updates.
- The `processing` guard and the worker thread of `start_processing`. A run is one sequential method call.
- Reading the spreadsheet with pandas. A run takes the parsed rows, each an ordered list of (column name, cell) pairs. The row index is the row's position.
- Column names that are not strings.
- Cell values other than None are given by the text `str(value)` gives for them.
- The member lookup and md5 are function parameters of the run.
  - The lookup returns the member record, or nothing for any failed request.
  - md5 is applied to the lower-cased address.
- Submitting a batch and reading its status are methods of `Remote.BatchService`.
- A failing submission is not modelled.
- How the service later advances a job's status is not modelled.
- Batch ids are numbered by the service; the truth test on an id becomes "an id is set".
- Reading the configuration and the interest ids from the environment. They are an immutable `Config`.
- The contact type is one of the two radio-button values.
- `json.dumps` of the payloads. An operation body is a datatype.
- Strings.Lower: lower-cases ASCII letters only, whereas Python's `str.lower` also maps other Unicode letters.
- Strings.Strip: uses Python's whitespace set for `str.strip`, over Unicode scalar values.
- `formatTimeDelta` and the elapsed-time display depend on the clock.
- Log messages other than the entries of `fouten`. This includes:
  - the debug traces;
  - the create and update notices;
  - the final report of errors;
  - the "New name" message (line 416). Its condition compares each remote name with itself, so it is never taken.
- A contact's progress text and the enabling of the status button.
- The message box shown when a run or a status check fails. The model returns the failure instead.
