/**
 * The ledger of the personal finance reporter: the transactions it records,
 * the table that maps each transaction's name to the transaction, the two
 * in-place table operations the commands use, and the lines `list` prints.
 */
module Ledgers {

  datatype Option<+T> = None | Some(value: T)

  /** How often a transaction happens. */
  datatype Frequency = Daily | Wkly | Mthly | Qtrly | Yrly

  /** Whether a transaction is an income or an expense. */
  datatype AddType = Income | Expense

  /**
   * A transaction amount. The program keeps an IEEE-754 binary64 number and
   * never computes with it, so only its 64-bit pattern is kept here.
   */
  datatype Amount = Amount(bits: bv64)

  datatype Transaction = Transaction(addType: AddType, freq: Frequency, name: string, amount: Amount)

  /** Transaction name to transaction; the table has no order. */
  type Ledger = map<string, Transaction>

  /** Every entry is stored under its own name. */
  predicate WellKeyed(ledger: Ledger) {
    forall key :: key in ledger ==> ledger[key].name == key
  }

  /**
   * Inserting into the table: `value` is stored under `key`, every other key
   * keeps its entry, and the entry that was under `key` before, if any, is
   * handed back.
   */
  method Insert(ledger: Ledger, key: string, value: Transaction) returns (ledger': Ledger, displaced: Option<Transaction>)
    ensures ledger'.Keys == ledger.Keys + {key}
    ensures ledger'[key] == value
    ensures forall k :: k in ledger && k != key ==> ledger'[k] == ledger[k]
    ensures displaced.Some? <==> key in ledger
    ensures displaced.Some? ==> displaced.value == ledger[key]
  {
    displaced := if key in ledger then Some(ledger[key]) else None;
    ledger' := ledger[key := value];
  }

  /**
   * Removing from the table: `key` is gone afterwards, every other key keeps
   * its entry, and the removed entry, if any, is handed back.
   */
  method Remove(ledger: Ledger, key: string) returns (ledger': Ledger, removed: Option<Transaction>)
    ensures ledger'.Keys == ledger.Keys - {key}
    ensures forall k :: k in ledger' ==> ledger'[k] == ledger[k]
    ensures removed.Some? <==> key in ledger
    ensures removed.Some? ==> removed.value == ledger[key]
  {
    removed := if key in ledger then Some(ledger[key]) else None;
    ledger' := ledger - {key};
  }

  /**
   * One line of `list`: the kind, the frequency, the name and the amount,
   * separated by tabs. Kind and frequency are printed by their variant names.
   */
  datatype Line = Line(addType: string, freq: string, name: string, amount: Amount)

  function AddTypeText(t: AddType): string {
    match t
    case Income => "income"
    case Expense => "expense"
  }

  function FrequencyText(f: Frequency): string {
    match f
    case Daily => "daily"
    case Wkly => "wkly"
    case Mthly => "mthly"
    case Qtrly => "qtrly"
    case Yrly => "yrly"
  }

  function LineOf(t: Transaction): (l: Line)
    ensures l.name == t.name && l.amount == t.amount
  {
    Line(AddTypeText(t.addType), FrequencyText(t.freq), t.name, t.amount)
  }

  /** A printed line identifies its transaction: no two transactions print alike. */
  lemma LineOfInjective(a: Transaction, b: Transaction)
    ensures LineOf(a) == LineOf(b) <==> a == b
  {
  }

  /** Removing a present key shrinks the table by exactly one entry. */
  lemma RemoveOneKey(ledger: Ledger, key: string)
    requires key in ledger
    ensures |ledger - {key}| == |ledger| - 1
  {
    assert (ledger - {key}).Keys == ledger.Keys - {key};
  }

  /**
   * The lines printed for a ledger, one per entry, in no particular order:
   * the entries are taken in an arbitrary order, as the table's iteration does.
   */
  ghost function Lines(ledger: Ledger): multiset<Line>
    decreases |ledger|
  {
    if ledger == map[] then multiset{}
    else
      var key :| key in ledger;
      RemoveOneKey(ledger, key);
      multiset{LineOf(ledger[key])} + Lines(ledger - {key})
  }

  /** Whichever entry is taken first, the lines of the ledger are the same. */
  lemma {:induction false} LinesRemove(ledger: Ledger, key: string)
    requires key in ledger
    ensures Lines(ledger) == multiset{LineOf(ledger[key])} + Lines(ledger - {key})
    decreases |ledger|
  {
    var first :| first in ledger && Lines(ledger) == multiset{LineOf(ledger[first])} + Lines(ledger - {first});
    if first != key {
      var withoutFirst, withoutKey := ledger - {first}, ledger - {key};
      assert Lines(withoutFirst) == multiset{LineOf(ledger[key])} + Lines(withoutFirst - {key}) by {
        RemoveOneKey(ledger, first);
        LinesRemove(withoutFirst, key);
      }
      assert Lines(withoutKey) == multiset{LineOf(ledger[first])} + Lines(withoutKey - {first}) by {
        RemoveOneKey(ledger, key);
        LinesRemove(withoutKey, first);
      }
      assert withoutFirst - {key} == withoutKey - {first};
    }
  }

  /** `list` prints exactly as many lines as the ledger has entries. */
  lemma {:induction false} LinesCount(ledger: Ledger)
    ensures |Lines(ledger)| == |ledger|
    decreases |ledger|
  {
    if ledger != map[] {
      var key :| key in ledger;
      LinesRemove(ledger, key);
      RemoveOneKey(ledger, key);
      LinesCount(ledger - {key});
    }
  }

  /** A line is printed for a ledger exactly when some entry prints it. */
  lemma {:induction false} LinesMembers(ledger: Ledger, line: Line)
    ensures line in Lines(ledger) <==> exists key :: key in ledger && LineOf(ledger[key]) == line
    decreases |ledger|
  {
    if ledger != map[] {
      var key :| key in ledger;
      LinesRemove(ledger, key);
      RemoveOneKey(ledger, key);
      LinesMembers(ledger - {key}, line);
      if line in Lines(ledger - {key}) {
        var k :| k in ledger - {key} && LineOf((ledger - {key})[k]) == line;
        assert k in ledger && LineOf(ledger[k]) == line;
      }
      if k :| k in ledger && LineOf(ledger[k]) == line {
        if k != key {
          assert k in ledger - {key} && LineOf((ledger - {key})[k]) == line;
        }
      }
    }
  }
}
