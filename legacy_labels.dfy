/**
 * The label titles of the hand-written layout benchmarks (SoA.h, AoS.h):
 * the layout's name, the way a vector of elements is moved, and the tail
 * policy, e.g. "SoA_LoadStore_RestScalar/" or "AoS_GatherScatter()_Padding/".
 */
module LegacyLabels {
  import opened TailPolicy

  /**
   * How a benchmark moves W elements between memory and registers: subscripts
   * lane by lane, aligned load/store, the interleaved-memory wrapper, the
   * gather/scatter index operator, or the gather/scatter member functions.
   */
  datatype Access = Subscript | LoadStore | Interleaved | GatherOperator | GatherFunction

  function Middle(access: Access): string
  {
    match access
    case Subscript => ""
    case LoadStore => "_LoadStore"
    case Interleaved => "_Interleaved"
    case GatherOperator => "_GatherScatter[]"
    case GatherFunction => "_GatherScatter()"
  }

  function Suffix(tail: Tail): string
  {
    if tail.Padding? then "_Padding/" else "_RestScalar/"
  }

  /** The title of the benchmark of `layout` moving vectors by `access` under `tail`. */
  function Title(layout: string, access: Access, tail: Tail): (r: string)
    ensures |r| > |layout| && r[..|layout|] == layout
    ensures r[|r| - 1] == '/'
  {
    layout + Middle(access) + Suffix(tail)
  }

  /** Within one layout, different benchmarks report different titles. */
  lemma TitlesDistinct(layout: string, a: Access, t: Tail, b: Access, u: Tail)
    ensures Title(layout, a, t) == Title(layout, b, u) <==> a == b && t == u
  {
    var r, s := Title(layout, a, t), Title(layout, b, u);
    if r == s {
      assert |Middle(a)| + |Suffix(t)| == |Middle(b)| + |Suffix(u)|;
      if a.GatherOperator? || a.GatherFunction? {
        assert r[|layout| + 14] == Middle(a)[14];
        assert s[|layout| + 14] == Middle(b)[14];
      }
    }
  }
}
