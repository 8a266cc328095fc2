/** A cursor over one sorted run: the interface every inner iterator has. */
module Iterators {
  import opened InternalKeys

  datatype Direction = Forward | Reverse

  class RunIterator {
    const run: seq<Entry>
    var pos: nat

    /** Position |run| is the one invalid position, whichever end was passed. */
    ghost predicate Ok()
      reads this
    {
      Sorted(run) && pos <= |run|
    }

    constructor (run: seq<Entry>)
      requires Sorted(run)
      ensures Ok() && this.run == run && pos == |run|
    {
      this.run, pos := run, |run|;
    }

    predicate Valid()
      reads this
    {
      pos < |run|
    }

    function Key(): InternalKey
      requires Valid()
      reads this
    {
      run[pos].key
    }

    function Value(): string
      requires Valid()
      reads this
    {
      run[pos].value
    }

    method SeekToFirst()
      requires Ok()
      modifies this`pos
      ensures Ok() && pos == 0
    {
      pos := 0;
    }

    method SeekToLast()
      requires Ok()
      modifies this`pos
      ensures Ok() && pos == if run == [] then 0 else |run| - 1
    {
      pos := if run == [] then 0 else |run| - 1;
    }

    method SeekTo(target: InternalKey)
      requires Ok()
      modifies this`pos
      ensures Ok() && pos == Seek(run, target)
    {
      pos := Seek(run, target);
    }

    method Next()
      requires Ok() && Valid()
      modifies this`pos
      ensures Ok() && pos == old(pos) + 1
    {
      pos := pos + 1;
    }

    method Prev()
      requires Ok() && Valid()
      modifies this`pos
      ensures Ok() && pos == if old(pos) == 0 then |run| else old(pos) - 1
    {
      pos := if pos == 0 then |run| else pos - 1;
    }
  }
}
