/**
  Parameter vectors (irpar): a header of elements with an id, a type and the positions of their
  data, and the connection list of a simulation.
 */
module Irpar {
  datatype Option<T> = None | Some(value: T)

  const ELEMENT_LEN := 6
  const LIBDYN_BLOCK := 100
  const LIBDYN_CONNLIST := 101

  datatype Element = Element(id: int, typ: int, iparPos: int, rparPos: int, rparLen: int, iparLen: int)

  /** The number of elements looked at: the search examines the first one in any case. */
  function Sets(ipar: seq<int>): nat
    requires |ipar| >= 2
  {
    if ipar[1] < 1 then 1 else ipar[1]
  }

  predicate HeaderOk(ipar: seq<int>) { |ipar| >= 2 && |ipar| >= 2 + ELEMENT_LEN * Sets(ipar) }

  /** irpar_get_element: integer data lie behind the header, real data in their own vector. */
  function ElementAt(ipar: seq<int>, n: nat): Element
    requires HeaderOk(ipar) && n < Sets(ipar)
  {
    var pos := 2 + n * ELEMENT_LEN;
    Element(ipar[pos], ipar[pos+1], ipar[pos+2] + 2 + ipar[1] * ELEMENT_LEN, ipar[pos+3], ipar[pos+4], ipar[pos+5])
  }

  predicate IsFirst(ipar: seq<int>, id: int, n: nat)
    requires HeaderOk(ipar)
  {
    && n < Sets(ipar) && ElementAt(ipar, n).id == id
    && forall i: nat | i < n :: ElementAt(ipar, i).id != id
  }

  predicate Absent(ipar: seq<int>, id: int)
    requires HeaderOk(ipar)
  {
    forall i: nat | i < Sets(ipar) :: ElementAt(ipar, i).id != id
  }

  function FindFrom(ipar: seq<int>, id: int, n: nat): (r: Option<nat>)
    requires HeaderOk(ipar) && n <= Sets(ipar) && forall i: nat | i < n :: ElementAt(ipar, i).id != id
    ensures r.Some? ==> IsFirst(ipar, id, r.value)
    ensures r.None? ==> Absent(ipar, id)
    decreases Sets(ipar) - n
  {
    if n == Sets(ipar) then None
    else if ElementAt(ipar, n).id == id then Some(n)
    else FindFrom(ipar, id, n + 1)
  }

  /** The index of the first element with this id. */
  function Find(ipar: seq<int>, id: int): (r: Option<nat>)
    requires HeaderOk(ipar)
    ensures r.Some? ==> IsFirst(ipar, id, r.value)
    ensures r.None? ==> Absent(ipar, id)
  {
    FindFrom(ipar, id, 0)
  }

  /** The first element is found by its id even in a header that announces none. */
  lemma FirstAlwaysExamined(ipar: seq<int>)
    requires HeaderOk(ipar)
    ensures |ipar| >= 8 && Find(ipar, ipar[2]) == Some(0)
    ensures ipar[1] <= 1 ==> forall id | id != ipar[2] :: Find(ipar, id) == None
  {
    assert ElementAt(ipar, 0).id == ipar[2];
  }

  /** irpar_get_element_by_id: tests its condition after each element; an unsuccessful scan clears the type. */
  method GetElementById(ipar: seq<int>, id: int) returns (found: bool, ret: Element, setindex: nat)
    requires HeaderOk(ipar)
    ensures found ==> IsFirst(ipar, id, setindex) && Find(ipar, id) == Some(setindex)
    ensures found ==> ret == ElementAt(ipar, setindex)
    ensures !found ==> Absent(ipar, id) && ret.typ == 0 && Find(ipar, id) == None
  {
    var i: int := 0;
    setindex := 0;
    ret := ElementAt(ipar, 0);
    var again := true;
    while again
      invariant 0 <= i <= Sets(ipar) && (again ==> i < Sets(ipar)) && (!again ==> i >= ipar[1])
      invariant i > 0 || again
      invariant forall j: nat | j < i :: ElementAt(ipar, j).id != id
      decreases Sets(ipar) - i, again
    {
      ret := ElementAt(ipar, i);
      if ret.id == id { return true, ret, i; }
      i := i + 1;
      again := ret.id != id && i < ipar[1];
    }
    ret := ret.(typ := 0);
    found := false;
  }

  // ------------------------------------------------------------------ connection lists

  /** Type 0 is a block and 1 the outside; destination type 2 names a block without connections. */
  datatype Entry = Entry(srcType: int, srcId: int, srcPort: int, dstType: int, dstId: int, dstPort: int)

  /** Entry i of a connection list whose header gives its length, entry size and offset. */
  predicate EntryInside(box: seq<int>, i: nat)
    requires |box| >= 4
  {
    var p := box[3] + i * box[2];
    0 <= p && p + 8 <= |box|
  }

  predicate ConnListOk(box: seq<int>) {
    |box| >= 4 && forall i: nat | i < box[1] :: EntryInside(box, i)
  }

  function EntryAt(box: seq<int>, i: nat): Entry
    requires |box| >= 4 && EntryInside(box, i)
  {
    var p := box[3] + i * box[2];
    Entry(box[p], box[p+1], box[p+3], box[p+4], box[p+5], box[p+7])
  }

  function Entries(box: seq<int>): seq<Entry>
    requires ConnListOk(box)
  {
    seq(if box[1] < 0 then 0 else box[1], i requires 0 <= i < box[1] => EntryAt(box, i))
  }
}
