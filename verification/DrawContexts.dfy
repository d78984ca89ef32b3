/** The draw contexts of a ring and their page tables. */
module DrawContexts {
  import opened Common
  import opened Pm4
  import opened CommandLists
  import opened Ringbuffer
  import opened A5xxPackets

  /** A draw context as the ring knows it: what its packets need, and its page table. */
  datatype DrawContext = DrawContext(ctx: Context, table: u64)

  /** A context switch goes out with protection off and nothing else. */
  const SWITCH_FLAGS: Flags := Flags(true, false, false, false, false, false, false, false)

  /** A list of a context without preamble goes out with all its buffers called. */
  const LIST_FLAGS: Flags := Flags(false, false, false, false, false, false, false, true)

  function TableOf(active: Option<DrawContext>, defaultTable: u64): u64 {
    if active.None? then defaultTable else active.value.table
  }

  /** The page table a switch from `active` to `to` loads: none if it stays the
      same, and none for the default table. */
  function TableToLoad(active: Option<DrawContext>, to: DrawContext, defaultTable: u64): Option<u64> {
    if (active.None? || active.value.table != to.table) && to.table != defaultTable then Some(to.table) else None
  }

  /** Before a submission for `to`, with the page table `table` loaded last: that is
      right already, or the right one will be loaded by a context switch that gets
      `through`. */
  predicate TableWillBeRight(active: Option<DrawContext>, table: u64, to: DrawContext, defaultTable: u64, through: bool) {
    table == to.table || (TableToLoad(active, to, defaultTable).Some? && through)
  }

  /** The table loaded after a context switch, if it gets `through`. */
  function NextTable(active: Option<DrawContext>, table: u64, to: DrawContext, defaultTable: u64, through: bool): (next: u64)
    ensures next == to.table <==> TableWillBeRight(active, table, to, defaultTable, through)
  {
    var pt := TableToLoad(active, to, defaultTable);
    if pt.Some? && through then pt.value else table
  }

  /** If the table is that of the active context, all it takes to load another one
      is that it is not the default one. */
  lemma RightInStep(active: Option<DrawContext>, to: DrawContext, defaultTable: u64, through: bool)
    ensures var table := TableOf(active, defaultTable);
            TableWillBeRight(active, table, to, defaultTable, through) <==>
              table == to.table || (to.table != defaultTable && through)
  {
  }

  /** A submission for `to` gets as far as the context switch, or needs none. */
  predicate Attempted(active: Option<DrawContext>, to: DrawContext, outOfMemory: bool, detached: bool) {
    !outOfMemory && (active == Some(to) || !detached)
  }

  lemma OneOfFour(s: Status)
    ensures s == Ok || s == Detached || s == GpuFault || s == NoSpace
  {
  }

  function BeforeLast<T>(s: seq<T>): seq<T> { if s == [] then [] else s[..|s| - 1] }
}
