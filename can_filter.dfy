/**
  A kernel acceptance filter as the Java caller describes it: a mask and the
  identifier pattern it is compared with. Both values are fixed at
  construction and only read afterwards.
*/
module CanFilter {

  datatype Filter = Filter(mask: bv32, filter: bv32)
  {
    function GetMask(): (r: bv32)
      ensures r == mask
    {
      mask
    }

    function GetFilter(): (r: bv32)
      ensures r == filter
    {
      filter
    }
  }

  /** The constructor: each getter returns its own argument, whatever the other one is. */
  function NewFilter(mask: bv32, filter: bv32): (f: Filter)
    ensures f.GetMask() == mask
    ensures f.GetFilter() == filter
  {
    Filter(mask, filter)
  }

  /** A filter is rebuilt by the constructor from its own `getMask` and `getFilter`. */
  lemma GettersRebuildFilter(f: Filter)
    ensures NewFilter(f.GetMask(), f.GetFilter()) == f
  {
  }

  /** Mask and pattern are stored independently: changing one argument leaves the other getter alone. */
  lemma FieldsIndependent(mask: bv32, mask': bv32, filter: bv32, filter': bv32)
    ensures NewFilter(mask, filter).GetMask() == NewFilter(mask, filter').GetMask()
    ensures NewFilter(mask, filter).GetFilter() == NewFilter(mask', filter).GetFilter()
  {
  }
}
