/** Documents as trees of mappings, sequences and scalars, and the input/output primitives of the YAML layer. */
module Yaml {
  import opened Wrappers

  datatype Doc =
    | Text(text: string)
    | Num(num: nat)
    | Flag(flag: bool)
    | Seq(items: seq<Doc>)
    | Map(fields: map<Key, Doc>)

  /** The key strings of the mappings. */
  datatype Key =
    | KName | KIdentifier | KType | KExtent | KSizes | KOffsets | KBase | KMembers | KStaticMembers | KBaseClass
    | KOffset | KEBO | KFundamental | KCompound | KArray
    | KQualifiers | KTypedef | KVector | KVectorSize | KForwardDecl | KRecurring | KBuiltin | KSourceLoc | KFile
    | KFunction | KLine | KCUName | KTypes | KEncoding

  datatype Result<+T> = Ok(value: T) | Err
  {
    predicate IsFailure() { Err? }

    function PropagateFailure<U>(): Result<U>
      requires Err?
    {
      Err
    }

    function Extract(): T
      requires Ok?
    {
      value
    }
  }

  // ---- Output -------------------------------------------------------------------------------------------------

  /** Another field, written only if it holds something. */
  function Put(key: Key, present: bool, value: Doc, others: map<Key, Doc>): map<Key, Doc> {
    if present then others[key := value] else others
  }

  function Nums(ns: seq<nat>): Doc {
    Seq(seq(|ns|, i requires 0 <= i < |ns| => Num(ns[i])))
  }

  // ---- Input --------------------------------------------------------------------------------------------------

  function Get(d: Doc, key: Key): (r: Option<Doc>)
    ensures r.Some? ==> r.value < d
  {
    if d.Map? then Find(d.fields, key) else None
  }

  function Find(fields: map<Key, Doc>, key: Key): Option<Doc> {
    if key in fields then Some(fields[key]) else None
  }

  function Required(d: Doc, key: Key): (r: Result<Doc>)
    ensures r.Ok? ==> r.value < d
  {
    match Get(d, key)
    case Some(v) => Ok(v)
    case None => Err
  }

  function AsText(d: Doc): Result<string> { if d.Text? then Ok(d.text) else Err }

  function AsNum(d: Doc): Result<nat> { if d.Num? then Ok(d.num) else Err }

  function AsFlag(d: Doc): Result<bool> { if d.Flag? then Ok(d.flag) else Err }

  /** Missing optional fields leave the target as it is. */
  function OptionalText(d: Doc, key: Key, target: string): Result<string> {
    match Get(d, key)
    case Some(v) => AsText(v)
    case None => Ok(target)
  }

  function OptionalNum(d: Doc, key: Key, target: nat): Result<nat> {
    match Get(d, key)
    case Some(v) => AsNum(v)
    case None => Ok(target)
  }

  function OptionalFlag(d: Doc, key: Key, target: bool): Result<bool> {
    match Get(d, key)
    case Some(v) => AsFlag(v)
    case None => Ok(target)
  }

  /** Sequence input into a vector overwrites its elements and keeps the rest of a longer one. */
  function Overwrite<T>(target: seq<T>, read: seq<T>): seq<T> {
    read + (if |read| < |target| then target[|read|..] else [])
  }

  function ReadNums(items: seq<Doc>): Result<seq<nat>>
    decreases |items|
  {
    if items == [] then Ok([])
    else
      var head :- AsNum(items[0]);
      var tail :- ReadNums(items[1..]);
      Ok([head] + tail)
  }

  function OptionalNums(d: Doc, key: Key, target: seq<nat>): Result<seq<nat>> {
    match Get(d, key)
    case Some(v) =>
      if !v.Seq? then Err
      else
        var read :- ReadNums(v.items);
        Ok(Overwrite(target, read))
    case None => Ok(target)
  }

  // ---- Reading what was written -------------------------------------------------------------------------------

  lemma FindPut(key: Key, present: bool, value: Doc, others: map<Key, Doc>)
    ensures forall k :: Find(Put(key, present, value, others), k)
                        == if present && k == key then Some(value) else Find(others, k)
  {
  }

  lemma {:induction false} ReadWrittenNums(ns: seq<nat>)
    ensures ReadNums(Nums(ns).items) == Ok(ns)
  {
    if ns != [] {
      ReadWrittenNums(ns[1..]);
      assert Nums(ns).items[1..] == Nums(ns[1..]).items;
      assert ns == [ns[0]] + ns[1..];
    }
  }
}
