/**
 * The protocol constants: the supported Data64 versions and the two
 * enumerations, serialization FORMAT and return TYPE, whose numeric values
 * travel in the header.
 */
module Common {
  import opened Wrappers

  /** Supported versions, newest first. */
  const VERSIONS: seq<int> := [3]

  /** The current version, the head of `VERSIONS`. */
  const VERSION: int := VERSIONS[0]

  /** Serialization formats; `Id()` is the number the enumeration assigns. */
  datatype Format = NONE | JSON | PHP | UBJSON | JSOX {
    function Id(): (n: nat)
      ensures n < 16
    {
      match this
      case NONE => 0
      case JSON => 1
      case PHP => 2
      case UBJSON => 3
      case JSOX => 4
    }
  }

  /**
   * Return types. In this implementation ARR_OBJ and STD_OBJ behave alike:
   * no branch of the core tests for either (only `type === RAW` is tested).
   */
  datatype Type = RAW | ARR_OBJ | STD_OBJ {
    function Id(): (n: nat)
      ensures n < 16
    {
      match this
      case RAW => 0
      case ARR_OBJ => 1
      case STD_OBJ => 2
    }
  }

  /** The FORMAT member with number `n`, if any: the enumeration read backwards. */
  function FormatOf(n: int): (r: Option<Format>)
    ensures r.Some? ==> r.value.Id() == n
    ensures r.None? ==> forall f: Format :: f.Id() != n
  {
    if n == 0 then Some(NONE)
    else if n == 1 then Some(JSON)
    else if n == 2 then Some(PHP)
    else if n == 3 then Some(UBJSON)
    else if n == 4 then Some(JSOX)
    else None
  }

  /** The TYPE member with number `n`, if any. */
  function TypeOf(n: int): (r: Option<Type>)
    ensures r.Some? ==> r.value.Id() == n
    ensures r.None? ==> forall t: Type :: t.Id() != n
  {
    if n == 0 then Some(RAW)
    else if n == 1 then Some(ARR_OBJ)
    else if n == 2 then Some(STD_OBJ)
    else None
  }

  /** FORMAT numbers are pairwise distinct: reading a number back gives the member. */
  lemma FormatIdsDistinct(f: Format)
    ensures FormatOf(f.Id()) == Some(f)
  {
  }

  /** TYPE numbers are pairwise distinct. */
  lemma TypeIdsDistinct(t: Type)
    ensures TypeOf(t.Id()) == Some(t)
  {
  }

  predicate NewestFirst(vs: seq<int>) {
    forall i, j :: 0 <= i < j < |vs| ==> vs[i] > vs[j]
  }

  /**
   * `VERSIONS` is strictly decreasing, so newest first; `VERSION` is its head;
   * every version is a positive number that fits the two-digit version field.
   */
  lemma VersionsNewestFirst()
    ensures |VERSIONS| > 0 && VERSION == VERSIONS[0] == 3
    ensures NewestFirst(VERSIONS)
    ensures forall v :: v in VERSIONS ==> 0 < v < 256
  {
  }
}
