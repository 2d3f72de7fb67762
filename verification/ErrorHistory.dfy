/** The error history of error_handler.c: a ring of ten slots against an unbounded log. */
module ErrorHistory {
  import opened Integers
  import opened PortTypes

  const MAX_ERROR_HISTORY: nat := 10

  datatype ErrorLevel = Debug | Info | Warning | Critical

  /** An entry; `code` is absent in a slot that holds only zero bytes. */
  datatype ErrorEntry = ErrorEntry(
    code: Option<ErrorFlag>,
    level: ErrorLevel,
    timestamp: nat,
    message: string,
    sourceFile: string,
    lineNumber: uint32)

  const BLANK: ErrorEntry := ErrorEntry(None, Debug, 0, "", "", 0)

  /** The slots after the entries `log` were written one by one into a cleared ring, the first of
      them at index `base`. */
  function Slots(base: nat, log: seq<ErrorEntry>): (slots: seq<ErrorEntry>)
    ensures |slots| == MAX_ERROR_HISTORY
  {
    if |log| == 0 then seq(MAX_ERROR_HISTORY, _ => BLANK)
    else Slots(base, log[..|log| - 1])[NextIndex(base, |log| - 1) := log[|log| - 1]]
  }

  function NextIndex(base: nat, entries: nat): (index: nat)
    ensures index < MAX_ERROR_HISTORY
  {
    (base + entries) % MAX_ERROR_HISTORY
  }

  /** The `k`-th most recent entry is `k` slots before the newest one, and the slots that have not
      been written since the last clearing are blank. */
  lemma {:induction false} RecentEntry(base: nat, log: seq<ErrorEntry>, k: nat)
    requires k < MAX_ERROR_HISTORY
    ensures Slots(base, log)[NextIndex(base, |log| + MAX_ERROR_HISTORY - 1 - k)]
         == if k < |log| then log[|log| - 1 - k] else BLANK
    decreases |log|
  {
    hide NextIndex;
    if |log| == 0 {
    } else {
      var front := log[..|log| - 1];
      assert Slots(base, log) == Slots(base, front)[NextIndex(base, |log| - 1) := log[|log| - 1]];
      IndexBack(base, |log| - 1, k);
      if k > 0 {
        RecentEntry(base, front, k - 1);
      }
    }
  }

  /** The same by the index: with `index` the place of the next entry, the `k`-th most recent of the
      last ten entries is at `index - 1 - k` modulo 10. */
  lemma RecentByIndex(base: nat, log: seq<ErrorEntry>, index: nat, k: nat)
    requires index < 10 && index == (base + |log|) % 10 && k < 10
    ensures |Slots(base, log)| == 10
    ensures Slots(base, log)[if index >= k + 1 then index - 1 - k else index + 9 - k]
         == if k < |log| then log[|log| - 1 - k] else BLANK
  {
    hide Slots;
    RecentEntry(base, log, k);
    IndexBefore(base + |log|, k);
  }

  lemma IndexBefore(at: nat, k: nat)
    requires k < 10
    ensures (at + 9 - k) % 10 == if at % 10 >= k + 1 then at % 10 - 1 - k else at % 10 + 9 - k
  {
    assert at == 10 * (at / 10) + at % 10;
    if at % 10 >= k + 1 {
      assert at + 9 - k == 10 * (at / 10 + 1) + (at % 10 - 1 - k);
    } else {
      assert at + 9 - k == 10 * (at / 10) + (at % 10 + 9 - k);
    }
  }

  /** Going back `k` slots from the newest entry leads to its slot only for `k == 0`. */
  lemma IndexBack(base: nat, at: nat, k: nat)
    requires k < MAX_ERROR_HISTORY
    ensures NextIndex(base, at + MAX_ERROR_HISTORY - k) == NextIndex(base, at) <==> k == 0
  {
    var x := base + at;
    assert x == 10 * (x / 10) + x % 10;
    if x % 10 < k {
      assert x + 10 - k == 10 * (x / 10) + (x % 10 + 10 - k);
    } else {
      assert x + 10 - k == 10 * (x / 10 + 1) + (x % 10 - k);
    }
  }

  /** Every slot is one of the ten most recent ones, so `RecentEntry` says what each of them holds. */
  lemma EverySlotIsRecent(base: nat, entries: nat, slot: nat) returns (k: nat)
    requires slot < MAX_ERROR_HISTORY
    ensures k < MAX_ERROR_HISTORY && slot == NextIndex(base, entries + MAX_ERROR_HISTORY - 1 - k)
  {
    var x := base + entries + MAX_ERROR_HISTORY - 1;
    k := if x % 10 >= slot then x % 10 - slot else x % 10 + 10 - slot;
    assert x == 10 * (x / 10) + x % 10;
  }

  lemma AfterNext(at: nat)
    ensures (at % MAX_ERROR_HISTORY + 1) % MAX_ERROR_HISTORY == (at + 1) % MAX_ERROR_HISTORY
  {
    assert at == 10 * (at / 10) + at % 10;
  }

  lemma BeforeNext(at: nat)
    ensures (at + MAX_ERROR_HISTORY - 1) % MAX_ERROR_HISTORY
         == if at % MAX_ERROR_HISTORY == 0 then MAX_ERROR_HISTORY - 1 else at % MAX_ERROR_HISTORY - 1
  {
    assert at == 10 * (at / 10) + at % 10;
  }

  lemma WrapBack(index: nat)
    requires index < 10
    ensures (index + 9) % 10 == if index == 0 then 9 else index - 1
  {
  }

  class ErrorRing {
    var history: array<ErrorEntry>
    var index: nat
    /** What has been registered since the last clearing, and where the ring stood then. */
    ghost var log: seq<ErrorEntry>
    ghost var base: nat

    ghost predicate Valid()
      reads this, history
    {
      && history.Length == MAX_ERROR_HISTORY
      && index == NextIndex(base, |log|)
      && history[..] == Slots(base, log)
    }

    constructor ()
      ensures Valid() && fresh(history) && log == [] && index == 0
    {
      history := new ErrorEntry[MAX_ERROR_HISTORY](_ => BLANK);
      index, base, log := 0, 0, [];
    }

    /** `error_handler_init`: the slots are cleared, the index stays where it is. */
    method Clear()
      requires Valid()
      modifies this`log, this`base, history
      ensures Valid() && log == [] && base == index
      ensures forall i :: 0 <= i < 10 ==> history[i] == BLANK
    {
      forall i | 0 <= i < history.Length {
        history[i] := BLANK;
      }
      base, log := index, [];
      assert history[..] == Slots(base, log);
    }

    method Register(entry: ErrorEntry)
      requires Valid()
      modifies this`index, this`log, history
      ensures Valid() && log == old(log) + [entry]
      ensures history[..] == old(history[..])[old(index) := entry] && index == (old(index) + 1) % 10
    {
      history[index] := entry;
      index := (index + 1) % MAX_ERROR_HISTORY;
      log := log + [entry];
      assert log[..|log| - 1] == old(log);
      AfterNext(base + |old(log)|);
      assert index == NextIndex(base, |log|);
    }

    method GetLast() returns (entry: ErrorEntry)
      requires Valid()
      ensures entry == if |log| > 0 then log[|log| - 1] else BLANK
      ensures entry == history[(index + 9) % 10]
    {
      RecentEntry(base, log, 0);
      BeforeNext(base + |log|);
      WrapBack(index);
      if index == 0 {
        return history[MAX_ERROR_HISTORY - 1];
      }
      return history[index - 1];
    }
  }
}
