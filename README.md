# pfr ledger, modelled in Dafny

pfr is a personal finance reporter run from the command line. It keeps a
ledger of recurring incomes and expenses in one JSON data file, `.pfr_data`,
in the user's home directory. The ledger is a table from transaction name to
transaction. Every command loads the whole table, changes it in memory and
writes the whole table back:

- `init` writes an empty ledger;
- `add` records a transaction under its own name. If the name is already
  present, the table's insert hands back the entry it displaced; the code puts
  that entry back and fails with `NameIsAlreadyTaken`, naming the displaced
  entry, without writing the file;
- `rm` removes a name. A missing name is not an error, and the file is
  written either way;
- `list` prints one line per entry, in the table's unspecified order.

The model has two modules:

- `Ledgers` (`ledger.dfy`) holds the data: `Frequency`, `AddType`,
  `Transaction` and `Ledger`. It also holds the table's insert and remove as
  methods on map values, the invariant `WellKeyed` ("every entry is stored
  under its own name"), and `Lines`, the multiset of lines `list` prints for
  a ledger. `Lines` takes the entries in an arbitrary order. `LinesRemove`
  proves that the order does not change the result.
- `Pfr` (`pfr.dfy`) holds the errors and the data file, a class `DataFile`.
  Its constant fields describe the environment: whether a home directory
  exists, whether the file can be opened, whether a write fails. Its one
  mutable field is `contents`, either a ledger in JSON or undecodable text.
  The commands are methods over a `DataFile`. Three client methods
  (`RmTwice`, `AddTwice`, `InitAddList`) show what callers can conclude from
  the command contracts alone.

What the code has:

- Five frequencies: `daily`, `wkly`, `mthly`, `qtrly`, `yrly`.
- Amounts of type `f64`.
- One data file, opened with create, read and write, and without truncation.
- `report`, a stub that prints its argument and returns success; it is left out of the model.

A missing data file behaves like an empty one. `load` opens the file with
`create`, so a missing file becomes empty, and an empty file does not decode.
The model treats both as `Undecodable`. The model also treats every
successful save as an exact rewrite of the file; see "## Left out" for what
that leaves aside.

## Model

| member | source | states |
|---|---|---|
| `Ledgers.Insert` | src/main.rs:181 | the key holds the new value; every other key keeps its entry; the displaced entry is returned exactly when the key was present |
| `Ledgers.Remove` | src/main.rs:198 | the key is gone; every other key keeps its entry; the removed entry is returned exactly when the key was present |
| `Ledgers.AddTypeText` | src/main.rs:211 | no contract of its own; defines the `{:?}` spelling of a kind (`income`, `expense`) |
| `Ledgers.FrequencyText` | src/main.rs:211 | no contract of its own; defines the `{:?}` spelling of a frequency (`daily`, `wkly`, `mthly`, `qtrly`, `yrly`) |
| `Ledgers.LineOf` | src/main.rs:211 | defines the four tab-separated fields of one printed line; its ensures only reads back the name and amount it stores; what it promises is proved in `Ledgers.LineOfInjective` and `Ledgers.LinesMembers` |
| `Ledgers.LineOfInjective` | src/main.rs:211 | two transactions print the same line exactly when they are equal |
| `Ledgers.Lines` | src/main.rs:209-212 | no contract of its own; defines the multiset of lines `list` prints, taking the entries in an arbitrary order |
| `Ledgers.LinesRemove` | src/main.rs:209-212 | the lines printed for a ledger do not depend on which entry the iteration visits first |
| `Ledgers.LinesCount` | src/main.rs:209-212 | exactly one line is printed per ledger entry |
| `Ledgers.LinesMembers` | src/main.rs:209-212 | a line is printed exactly when some entry of the ledger prints it |
| `Pfr.DataFile.Open` | src/main.rs:143-155 | defines the outcome of finding the home directory and opening the file (`CouldNotFindHomeDirectory`, then `WhileAttemptingToOpenDataFile`); its ensures only read back its two branches; it stands for the environment and has no partner property |
| `Pfr.DataFile.Load` | src/main.rs:158-161 | defines reading the ledger: the open error, else `DuringDeSerialisation` on undecodable text, else the stored ledger; its ensures only read back that body; the property it takes part in, the round trip, is stated on `Pfr.DataFile.Save` |
| `Pfr.DataFile.Save` | src/main.rs:164-167 | an open failure leaves the file as it was; a failed write reports `DuringSerialisation` and leaves undecodable text; a successful write reads back as the ledger written |
| `Pfr.Init` | src/main.rs:170-173 | on a writable file the stored ledger becomes empty and keeps every entry under its own name; otherwise the save error is returned |
| `Pfr.InsertOrRollBack` | src/main.rs:181-188 | a fresh name is inserted and every other entry is kept; for a present name, the displaced entry's name is reported and the entry is back under that name, and every entry under a third key is kept; when the displaced entry carries the name it was stored under (in particular on a well-keyed ledger) the in-memory ledger after the rollback equals the one loaded and the reported name is the one passed in; when it carries another name, the new transaction stays under its name |
| `Pfr.Add` | src/main.rs:177-192 | a load error is returned and nothing is written; a present name returns `NameIsAlreadyTaken` with the file unchanged, naming the name passed in when the file is well keyed; a fresh name stores the old ledger plus that one entry; well-keyedness is preserved |
| `Pfr.Rm` | src/main.rs:195-202 | a load error is returned and nothing is written; otherwise the stored ledger becomes the old one minus the name, and is unchanged when the name was absent; well-keyedness is preserved |
| `Pfr.List` | src/main.rs:205-215 | the file is not changed; a load error is returned with no output; otherwise the printed lines are, as a multiset, one line per entry, and their number equals the ledger size |
| `Pfr.RmTwice` | src/main.rs:195-202 | removing a name twice leaves the same ledger as removing it once, and the second removal succeeds |
| `Pfr.AddTwice` | src/main.rs:177-192 | after a successful `add`, adding the same transaction again fails with its name and the stored ledger keeps the first insertion |
| `Pfr.InitAddList` | src/main.rs:170-215 | on a writable file, `init`, `add` and `list` print exactly the one added transaction |

## Left out

- Finding the home directory and opening `.pfr_data` (src/main.rs:143-155). These are file-system calls. They appear only as the outcomes recorded in `DataFile`'s constant fields.
- JSON encoding and decoding through serde_json (src/main.rs:160, 166). A successful save is modelled as an exact round trip, and any decode failure as an opaque cause. As a consequence, two behaviours of the real program are not captured. serde_json writes a NaN or infinite amount as `null`, which does not load back. And the file is opened without truncation (src/main.rs:149-153), while `serde_json::from_reader` (src/main.rs:160) rejects trailing characters. So on a file pfr wrote itself, every `rm` of a present name and every `init` over a non-empty ledger does leave trailing bytes, and the next load fails with `DuringDeSerialisation`.
- `Pfr.DataFile.Save`, `Pfr.Init`, `Pfr.Rm`, `Pfr.RmTwice`, `Pfr.InitAddList`: their contracts hold only for a file that each save rewrites exactly. The clause that fails in the real program is `Save`'s round trip (a successful save reads back as the ledger written) whenever the new text is shorter than the old. So in the real program the second removal in `RmTwice` fails when the name was present at the first removal; removing an absent name rewrites text of the same length and the file still loads. And `InitAddList` prints nothing but an error whenever the file held more than an empty ledger before `init`, because the following `add` cannot load what `init` left.
- `Pfr.DataFile.Save`: a write that fails part-way is modelled as leaving undecodable text. The real file may still hold its old bytes if the first write failed.
- The text of a printed amount. `f64` values (src/main.rs:75) are kept as their 64-bit pattern, and Rust's float formatting is not modelled. The other three fields of a line are modelled as the variant names and the transaction name.
- `report` (src/main.rs:217-223). It is a stub that prints its argument and returns success.
- `report_error` (src/main.rs:116-132). It only prints the error message.
- Command-line parsing and dispatch (src/main.rs:17-58, 88-101). These come from structopt/clap macros.
- The order in which `list` visits entries. It is unspecified, so only the multiset of lines is stated.
- Concurrent runs against the same file. The program assumes one run at a time.
