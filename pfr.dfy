/**
 * The commands of the personal finance reporter. Every command loads the whole
 * ledger from one data file in the user's home directory, changes it in memory
 * and saves the whole ledger back.
 */
module Pfr {
  import opened Ledgers

  /** The ways a command can fail; the causes of I/O and JSON failures are kept as text. */
  datatype Error =
    | WhileAttemptingToOpenDataFile(cause: string)
    | DuringSerialisation(cause: string)
    | DuringDeSerialisation(cause: string)
    | CouldNotFindHomeDirectory
    | NameIsAlreadyTaken(name: string)

  datatype Result<+T> = Ok(value: T) | Err(error: Error)

  /**
   * What the data file holds: a ledger written as JSON, or text that does not
   * read back as a ledger. A file that does not exist yet is opened with
   * `create`, so it reads as an empty file, which is `Undecodable` too.
   */
  datatype FileContents = Json(ledger: Ledger) | Undecodable(cause: string)

  /**
   * The data file `.pfr_data` in the user's home directory. The constant
   * fields are the environment the program runs in; only `contents` changes.
   */
  class DataFile {
    /** Whether a home directory could be found. */
    const homeFound: bool
    /** Why the operating system refuses to open the file, if it does. */
    const openError: Option<string>
    /** Why writing the file fails, if it does. */
    const writeError: Option<string>
    var contents: FileContents

    constructor (homeFound: bool, openError: Option<string>, writeError: Option<string>, contents: FileContents)
      ensures this.homeFound == homeFound && this.openError == openError && this.writeError == writeError
      ensures this.contents == contents
    {
      this.homeFound := homeFound;
      this.openError := openError;
      this.writeError := writeError;
      this.contents := contents;
    }

    /** Finding the home directory and opening the file in it. */
    function Open(): (r: Result<()>)
      ensures r.Ok? <==> homeFound && openError.None?
      ensures !homeFound ==> r == Err(CouldNotFindHomeDirectory)
      ensures r.Err? ==> r.error.CouldNotFindHomeDirectory? || r.error.WhileAttemptingToOpenDataFile?
    {
      if !homeFound then Err(CouldNotFindHomeDirectory)
      else if openError.Some? then Err(WhileAttemptingToOpenDataFile(openError.value))
      else Ok(())
    }

    /** Reading the whole ledger from the file. */
    function Load(): (r: Result<Ledger>)
      reads this
      ensures r.Ok? <==> Open().Ok? && contents.Json?
      ensures r.Ok? ==> contents == Json(r.value)
      ensures r.Err? ==> r.error.CouldNotFindHomeDirectory? || r.error.WhileAttemptingToOpenDataFile? || r.error.DuringDeSerialisation?
    {
      if Open().Err? then Err(Open().error)
      else match contents
        case Json(ledger) => Ok(ledger)
        case Undecodable(cause) => Err(DuringDeSerialisation(cause))
    }

    /** Whether the file, when it holds a ledger, keeps every entry under its own name. */
    predicate Consistent()
      reads this
    {
      contents.Json? ==> WellKeyed(contents.ledger)
    }

    /**
     * Writing the whole ledger to the file. A file that cannot be opened is
     * left alone; a write that fails part-way leaves text that does not read
     * back; a write that succeeds reads back as the ledger written.
     */
    method Save(ledger: Ledger) returns (r: Result<()>)
      modifies this
      ensures Open().Err? ==> r == Err(Open().error) && contents == old(contents)
      ensures Open().Ok? && writeError.Some? ==> r == Err(DuringSerialisation(writeError.value)) && contents.Undecodable?
      ensures Open().Ok? && writeError.None? ==> r == Ok(()) && contents == Json(ledger)
      ensures r.Ok? ==> Load() == Ok(ledger)
    {
      var handle := Open();
      if handle.Err? {
        return Err(handle.error);
      }
      match writeError
      case Some(cause) =>
        contents := Undecodable(cause);
        r := Err(DuringSerialisation(cause));
      case None =>
        contents := Json(ledger);
        r := Ok(());
    }
  }

  /** `init`: writes an empty ledger. */
  method Init(file: DataFile) returns (r: Result<()>)
    modifies file
    ensures file.Open().Err? ==> r == Err(file.Open().error) && file.contents == old(file.contents)
    ensures file.Open().Ok? && file.writeError.Some? ==> r == Err(DuringSerialisation(file.writeError.value)) && file.contents.Undecodable?
    ensures file.Open().Ok? && file.writeError.None? ==> r == Ok(()) && file.Load() == Ok(map[])
    ensures r.Ok? ==> file.Consistent()
  {
    r := file.Save(map[]);
  }

  /**
   * The in-memory step of `add`: insert the transaction under its name and,
   * when that displaces an entry, put the displaced entry back under its own
   * name and report that name as taken. Only when the displaced entry carries
   * the name it was stored under does this restore the table as it was; when
   * it carries another name, the new transaction stays under its name and the
   * displaced entry lands under its own. The table is never saved on that path.
   */
  method InsertOrRollBack(ledger: Ledger, t: Transaction) returns (after: Ledger, taken: Option<string>)
    ensures t.name !in ledger ==> taken == None && after.Keys == ledger.Keys + {t.name} && after[t.name] == t
    ensures t.name !in ledger ==> forall k :: k in ledger ==> after[k] == ledger[k]
    ensures t.name in ledger ==> taken == Some(ledger[t.name].name) && taken.value in after && after[taken.value] == ledger[t.name]
    ensures t.name in ledger ==> forall k :: k in ledger && k != t.name && k != ledger[t.name].name ==> k in after && after[k] == ledger[k]
    ensures t.name in ledger && ledger[t.name].name == t.name ==> taken == Some(t.name) && after == ledger
    ensures t.name in ledger && WellKeyed(ledger) ==> taken == Some(t.name) && after == ledger
    ensures t.name in ledger && ledger[t.name].name != t.name ==> t.name in after && after[t.name] == t
  {
    var displaced;
    after, displaced := Insert(ledger, t.name, t);
    match displaced
    case None =>
      taken := None;
    case Some(val) =>
      taken := Some(val.name);
      var replaced;
      after, replaced := Insert(after, val.name, val);
  }

  /**
   * `add`: records a transaction under its name. A name already present is an
   * error and the file is not written; so is a ledger that cannot be loaded.
   */
  method Add(file: DataFile, t: Transaction) returns (r: Result<()>)
    modifies file
    ensures old(file.Load()).Err? ==> r == Err(old(file.Load()).error) && file.contents == old(file.contents)
    ensures old(file.Load()).Ok? && t.name in old(file.Load()).value ==>
      r == Err(NameIsAlreadyTaken(old(file.Load()).value[t.name].name)) && file.contents == old(file.contents)
    ensures old(file.Load()).Ok? && t.name in old(file.Load()).value && old(file.Consistent()) ==>
      r == Err(NameIsAlreadyTaken(t.name))
    ensures old(file.Load()).Ok? && t.name !in old(file.Load()).value && file.writeError.Some? ==>
      r == Err(DuringSerialisation(file.writeError.value)) && file.contents.Undecodable?
    ensures old(file.Load()).Ok? && t.name !in old(file.Load()).value && file.writeError.None? ==>
      r == Ok(()) && file.Load() == Ok(old(file.Load()).value[t.name := t])
    ensures old(file.Consistent()) ==> file.Consistent()
  {
    var loaded := file.Load();
    if loaded.Err? {
      return Err(loaded.error);
    }
    var ledger, taken := InsertOrRollBack(loaded.value, t);
    if taken.Some? {
      return Err(NameIsAlreadyTaken(taken.value));
    }
    assert ledger == loaded.value[t.name := t];
    r := file.Save(ledger);
  }

  /**
   * `rm`: removes the entry with the given name. A name that is not present is
   * not an error: the ledger is written back unchanged.
   */
  method Rm(file: DataFile, name: string) returns (r: Result<()>)
    modifies file
    ensures old(file.Load()).Err? ==> r == Err(old(file.Load()).error) && file.contents == old(file.contents)
    ensures old(file.Load()).Ok? && file.writeError.Some? ==>
      r == Err(DuringSerialisation(file.writeError.value)) && file.contents.Undecodable?
    ensures old(file.Load()).Ok? && file.writeError.None? ==>
      r == Ok(()) && file.Load() == Ok(old(file.Load()).value - {name})
    ensures old(file.Load()).Ok? && name !in old(file.Load()).value && file.writeError.None? ==>
      file.contents == old(file.contents)
    ensures old(file.Consistent()) ==> file.Consistent()
  {
    var loaded := file.Load();
    if loaded.Err? {
      return Err(loaded.error);
    }
    var ledger, removed := Remove(loaded.value, name);
    assert ledger == loaded.value - {name};
    var saved := file.Save(ledger);
    if saved.Err? {
      return Err(saved.error);
    }
    r := Ok(());
  }

  /**
   * `list`: prints one line per entry, in the table's unspecified order, and
   * leaves the file alone.
   */
  method List(file: DataFile) returns (out: seq<Line>, r: Result<()>)
    ensures file.Load().Err? ==> r == Err(file.Load().error) && out == []
    ensures file.Load().Ok? ==> r == Ok(()) && multiset(out) == Lines(file.Load().value)
    ensures file.Load().Ok? ==> |out| == |file.Load().value|
  {
    var loaded := file.Load();
    if loaded.Err? {
      return [], Err(loaded.error);
    }
    var rest := loaded.value;
    out := [];
    while rest != map[]
      invariant multiset(out) + Lines(rest) == Lines(loaded.value)
      invariant |out| + |rest| == |loaded.value|
      decreases |rest|
    {
      var name :| name in rest;
      LinesRemove(rest, name);
      RemoveOneKey(rest, name);
      out := out + [LineOf(rest[name])];
      rest := rest - {name};
    }
    r := Ok(());
  }

  /** `rm` is idempotent: a second removal of the same name succeeds and changes nothing. */
  method RmTwice(file: DataFile, name: string) returns (first: Result<()>, second: Result<()>)
    modifies file
    ensures first.Ok? ==> second.Ok? && old(file.Load()).Ok? && file.Load() == Ok(old(file.Load()).value - {name})
  {
    first := Rm(file, name);
    ghost var once := file.contents;
    second := Rm(file, name);
    assert first.Ok? ==> file.contents == once;
  }

  /** Adding the same transaction twice: the second `add` reports its name as taken and writes nothing. */
  method AddTwice(file: DataFile, t: Transaction) returns (first: Result<()>, second: Result<()>)
    modifies file
    ensures first.Ok? ==> second == Err(NameIsAlreadyTaken(t.name))
    ensures first.Ok? ==> old(file.Load()).Ok? && file.Load() == Ok(old(file.Load()).value[t.name := t])
  {
    first := Add(file, t);
    second := Add(file, t);
  }

  /** On a file that can be written, `init`, `add` and `list` print exactly the added transaction. */
  method InitAddList(file: DataFile, t: Transaction) returns (out: seq<Line>, r: Result<()>)
    modifies file
    ensures file.Open().Ok? && file.writeError.None? ==> r == Ok(()) && out == [LineOf(t)]
  {
    var initialised := Init(file);
    var added := Add(file, t);
    out, r := List(file);
    if file.Open().Ok? && file.writeError.None? {
      LinesRemove(map[t.name := t], t.name);
      assert map[t.name := t] - {t.name} == map[];
      assert multiset(out) == multiset{LineOf(t)};
      assert out[0] in multiset(out);
    }
  }
}
