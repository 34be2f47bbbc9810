/** The registered fdinfo callbacks (src/extract_processinfo_fdinfo.c:65-86). */
module FdinfoCallbacks {

  /** The device a callback belongs to, and whether it is asked. */
  datatype Callback<G> = Callback(gpu: G, active: bool)

  class Registry<G(==)> {
    var entries: seq<Callback<G>>

    constructor ()
      ensures entries == []
    {
      entries := [];
    }

    /** processinfo_register_fdinfo_callback. */
    method Register(gpu: G)
      modifies this
      ensures entries == old(entries) + [Callback(gpu, true)]
    {
      entries := entries + [Callback(gpu, true)];
    }

    /** processinfo_enable_disable_callback_for. */
    method Enable(gpu: G, enable: bool)
      modifies this
      ensures entries == Enabled(old(entries), gpu, enable)
    {
      var i := 0;
      ghost var e := entries;
      while i < |entries|
        invariant i <= |entries| == |e|
        invariant forall k :: 0 <= k < i ==> entries[k] == Enabled(e, gpu, enable)[k]
        invariant forall k :: i <= k < |e| ==> entries[k] == e[k]
      {
        if entries[i].gpu == gpu {
          entries := entries[i := entries[i].(active := enable)];
        }
        i := i + 1;
      }
    }
  }

  function Enabled<G(==)>(es: seq<Callback<G>>, gpu: G, enable: bool): (r: seq<Callback<G>>)
    ensures |r| == |es|
  {
    seq(|es|, i requires 0 <= i < |es| => if es[i].gpu == gpu then es[i].(active := enable) else es[i])
  }
}
