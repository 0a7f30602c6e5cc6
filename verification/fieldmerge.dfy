/** Merging the field maps of the registered handlers into the one `queries` (or
    `mutations`) map a request's schema is built from (runtime/mux.go, ServeHTTP). */
module FieldMerge {
  import opened MuxTypes

  /** `for k, v := range src { dst[k] = v }`: every field of `src` is written over `dst`. */
  function Overwrite(dst: Fields, src: Fields): (r: Fields)
    ensures r.Keys == dst.Keys + src.Keys
    ensures forall k :: k in src ==> r[k] == src[k]
    ensures forall k :: k in dst && k !in src ==> r[k] == dst[k]
  {
    dst + src
  }

  /** The Go loop itself, one key at a time in whatever order the map yields them. */
  method CopyFields(dst: Fields, src: Fields) returns (r: Fields)
    ensures r == Overwrite(dst, src)
  {
    r := dst;
    var rest := src.Keys;
    while rest != {}
      invariant rest <= src.Keys
      invariant r.Keys == dst.Keys + (src.Keys - rest)
      invariant forall k :: k in src && k !in rest ==> r[k] == src[k]
      invariant forall k :: k in dst && (k !in src || k in rest) ==> r[k] == dst[k]
      decreases rest
    {
      var k :| k in rest;
      r := r[k := src[k]];
      rest := rest - {k};
    }
  }

  /** The handlers' maps folded left to right with overwrite. */
  function MergeAll(fs: seq<Fields>): Fields
    decreases |fs|
  {
    if fs == [] then map[] else Overwrite(MergeAll(fs[..|fs| - 1]), fs[|fs| - 1])
  }

  /** A name is merged iff some handler defines it. */
  lemma {:induction false} MergedKeys(fs: seq<Fields>, k: string)
    ensures k in MergeAll(fs) <==> exists i :: 0 <= i < |fs| && k in fs[i]
    decreases |fs|
  {
    if fs != [] {
      var init := fs[..|fs| - 1];
      MergedKeys(init, k);
      if k in MergeAll(init) {
        var i :| 0 <= i < |init| && k in init[i];
        assert k in fs[i];
      }
      if i :| 0 <= i < |fs| && k in fs[i] {
        if i < |fs| - 1 {
          assert k in init[i];
        }
      }
    }
  }

  /** Last write wins: a name takes the definition of the last handler that defines it. */
  lemma {:induction false} LastWriteWins(fs: seq<Fields>, k: string, i: nat)
    requires i < |fs| && k in fs[i]
    requires forall j :: i < j < |fs| ==> k !in fs[j]
    ensures k in MergeAll(fs) && MergeAll(fs)[k] == fs[i][k]
    decreases |fs|
  {
    if i < |fs| - 1 {
      var init := fs[..|fs| - 1];
      assert k in init[i];
      LastWriteWins(init, k, i);
    }
  }

  /** Appending one handler's map to the fold is one more overwrite. */
  lemma MergeSnoc(fs: seq<Fields>, f: Fields)
    ensures MergeAll(fs + [f]) == Overwrite(MergeAll(fs), f)
  {
    assert (fs + [f])[..|fs|] == fs;
  }
}
