/** Names that the page code and the environment code share. */
module Layout {

  const UTOP := 0xEEC0_0000

  function PGNUM(va: nat): nat {
    va / 4096
  }

  function PGOFF(va: nat): nat {
    va % 4096
  }

  /** A C pointer into a table: the index of what it points to. */
  datatype Ptr = NULL | To(at: nat)

  /** What the link before element k of a linked list holds. */
  function Head(xs: seq<nat>, k: nat): Ptr {
    if k < |xs| then To(xs[k]) else NULL
  }
}
