# EmailAutomation: a verified model of the contact pipeline

The program reads contact rows from a spreadsheet and keeps only the `name`, `bio` and `email` columns of each row. For every contact it asks a language model for a personalised email body. It sends every non-empty body over SMTP and records one `{email, message}` task result per send in a shared list. This project models the three pieces of that pipeline that are logic rather than I/O, and proves what they promise:

- **Field filter** (`contacts.dfy`, module `Contacts`). A row is a `map<string, string>`. `FilterRecord` restricts a row to the allow-list `["name", "bio", "email"]`. `FilterData` applies it to every row, keeping order.
- **Sender report** (`mailer.dfy`, module `Mailer`). The SMTP session is represented only by how it ended, an `Outcome`. `SendEmail` is the `(success, message)` pair the sender returns for that outcome.
- **Job runner** (`job.dfy`, module `Job`). The shared result list is a class `TaskList` whose `items` field only `Append` changes. `DoJob` is the recursive runner. It handles the first record, then calls itself on the rest with the same list, and returns that list. `JobResults` is the function that specifies what one run appends. `ContentIndices` gives the positions of the records whose composed content is non-empty. The lemmas relate these to the input. `Run` is the entry point: it filters the rows and runs the job on a fresh empty list.

The language-model composer and the SMTP transport stay abstract. They are function-typed parameters: `compose: Record -> string` and `transport: (string, seq<string>) -> Outcome`.

The sender's `message` is set at several points of its `try`. The `with` block that closes the SMTP session also lies inside that `try` (main.py:95-113). So an SMTP error raised while closing, after the message was accepted, leaves `success` true but replaces the success message with the error text. The model keeps this as the outcome `SentThenFailed`. `SendEmail`'s contract states it: `success` is false only for `Failed`, and the message is "Email sent successfully!" only for `Sent`. So a recorded task whose message reports an SMTP error does not by itself mean the email was not delivered.

## Model

| member | source | states |
|---|---|---|
| `Contacts.FilterRecord` | main.py:67-68 | a key is in the filtered row exactly when it is in the input row and on the allow-list; every kept value is the input's value; no other key (no default) appears |
| `Contacts.FilterData` | main.py:68 | the output has as many rows as the input, and row i is the filtered projection of input row i |
| `Contacts.FilterRecordIdempotent` | main.py:67-68 | filtering an already filtered row changes nothing |
| `Contacts.FilterRecordSubMap` | main.py:67-68 | a filtered row's keys are a subset of the input row's keys, and it has at most three columns |
| `Contacts.FilterDataKeepsEmail` | main.py:67-68 | a row keeps its `email` column, with the same value, through the filter exactly when it had one |
| `Mailer.FaultMessage` | main.py:108-113 | a recovered exception's message is never empty and never the success text; a timeout's starts with 'T', an SMTP error's with 'S', and an SMTP error's description is what follows the "SMTP error: " prefix |
| `Mailer.SendEmail` | main.py:92-114 | success is true exactly when submission completed; the message is the success text exactly for a clean send; a timeout gives (false, timeout text); an SMTP error `e` gives (false, "SMTP error: " + e); the message is never left empty |
| `Mailer.FaultMessageInjective` | main.py:108-113 | different recovered exceptions are reported with different messages |
| `Mailer.SendEmailInjective` | main.py:92-114 | two session outcomes with the same reported pair are the same outcome |
| `Job.Attempt` | main.py:128-134 | the task recorded for a sent record carries that record's `email` and a non-empty message, and the message is the success text exactly when the session for this record's body and address ended cleanly |
| `Job.JobResults` | main.py:118-139 | a run appends at most one result per input record |
| `Job.ContentIndices` | main.py:119-126 | the recorded positions are valid positions of the input, at most one per record |
| `Job.ContentIndicesExact` | main.py:119-137 | the positions increase strictly, and position i is among them exactly when record i's composed content is non-empty |
| `Job.JobResultsAt` | main.py:118-139 | the k-th appended result is the send attempt of the k-th record with non-empty content: its address and the message reported for its own send |
| `Job.JobResultsSpec` | main.py:118-139 | one result per record with non-empty content and none for empty content, in input order; each result's email is its record's `email` and its message is what the send of that record reported |
| `Job.JobResultsAppend` | main.py:136-137 | the results over a concatenation of record lists are the concatenation of the results over each part, in order |
| `Job.FailedSendRecorded` | main.py:128-137 | a failed send is still recorded with its failure message, and a later record with content is still processed and recorded after it |
| `Job.DoJob` | main.py:118-139 | returns the same list object it was given; the new contents are the old contents followed by `JobResults` of the records, so it only appends |
| `Job.TaskList.Append` | main.py:134 | appending adds exactly one result at the end |
| `Job.Run` | main.py:143-146 | the entry point returns a fresh list holding exactly `JobResults` of the filtered rows; every filtered row still has its `email` |

## Left out

- Spreadsheet access (credentials, opening the sheet, fetching all records) is network I/O; the rows are an input sequence. Every cell is a `string` in the model, while the spreadsheet library returns numeric-looking cells as numbers.
- The language-model composer is a foreign, nondeterministic call. It is the parameter `compose`, a total function. Two identical records therefore get the same body in the model, and a composer failure, which aborts the real run, cannot occur.
- The SMTP session (connection, STARTTLS, login, MIME construction, submission) is transport I/O. It is the parameter `transport`, which yields only an `Outcome`. `transport` is a deterministic, history-free function of the body and the destinations: two identical records get the same outcome and message in the model, while real sessions can differ (a first timeout and a later success, rate limiting of later sends). Exceptions other than timeouts and SMTP errors abort the real run; the model has no outcome for them.
- Console output, loading the environment file and reading configuration variables are side-effecting I/O with no effect on the results.
- DoJob, JobResults and Run: no recursion depth bound is modelled. The runner makes one nested call per record, and Python's default limit is 1000 frames, with the composer's and the SMTP library's frames on top. So a sheet of roughly a thousand rows raises `RecursionError` part-way through. The emails sent until then stay sent, and the final list of results is never printed. The contracts describe the result for every list length.
- A record without an `email` column makes the real runner raise a `KeyError` before composing. `DoJob`, `JobResults` and `Run` require every record to have one instead of modelling the exception.
- Python dictionaries keep insertion order; a Dafny `map` has none. The order of keys inside a filtered row is not modelled.
- Re-running the pipeline re-sends to every contact; nothing records earlier runs, so there is nothing to model.
