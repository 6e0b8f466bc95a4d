/** Null-safe equality and comparison (com.zidsoft.zdlib.util.ObjectUtils).
    A Java object's own equals/compareTo is passed in as a function value. */
module ObjectUtils {
  import opened Lang

  /** ObjectUtils.equals: two nulls are equal, null never equals a non-null
      object, and two non-null objects are compared with the first one's equals. */
  function Equals<T>(object1: Option<T>, object2: Option<T>, eq: (T, T) -> bool): (r: bool)
    ensures object1.None? && object2.None? ==> r
    ensures object1.None? != object2.None? ==> !r
    ensures object1.Some? && object2.Some? ==> (r <==> eq(object1.value, object2.value))
  {
    if object1.None? || object2.None? then object1.None? && object2.None?
    else eq(object1.value, object2.value)
  }

  /** ObjectUtils.notEqual. */
  function NotEqual<T>(object1: Option<T>, object2: Option<T>, eq: (T, T) -> bool): (r: bool)
    ensures r <==> !Equals(object1, object2, eq)
  {
    !Equals(object1, object2, eq)
  }

  /** ObjectUtils.compare: null sorts before every non-null value. */
  function Compare<T>(c1: Option<T>, c2: Option<T>, compareTo: (T, T) -> int): (r: int)
    ensures c1.None? && c2.None? ==> r == 0
    ensures c1.None? && c2.Some? ==> r == -1
    ensures c1.Some? && c2.None? ==> r == 1
    ensures c1.Some? && c2.Some? ==> r == compareTo(c1.value, c2.value)
  {
    if c1.None? || c2.None? then
      (if c1.None? && c2.None? then 0 else if c1.None? then -1 else 1)
    else compareTo(c1.value, c2.value)
  }

  function Sign(x: int): int
  {
    if x < 0 then -1 else if x > 0 then 1 else 0
  }

  /** Equals inherits symmetry from the objects' own equals. */
  lemma EqualsSymmetric<T>(a: Option<T>, b: Option<T>, eq: (T, T) -> bool)
    requires forall x, y :: eq(x, y) == eq(y, x)
    ensures Equals(a, b, eq) == Equals(b, a, eq)
  {
  }

  /** With the built-in equality as equals, Equals is exactly the equality of
      the nullable references. */
  lemma EqualsIsReferenceEquality<T>(a: Option<T>, b: Option<T>)
    ensures Equals(a, b, (x: T, y: T) => x == y) <==> a == b
  {
  }

  /** Compare is antisymmetric (in sign) whenever compareTo is, as the
      Comparable contract demands: nulls do not break the ordering. */
  lemma CompareAntisymmetric<T>(a: Option<T>, b: Option<T>, compareTo: (T, T) -> int)
    requires forall x, y :: Sign(compareTo(x, y)) == -Sign(compareTo(y, x))
    ensures Sign(Compare(a, b, compareTo)) == -Sign(Compare(b, a, compareTo))
  {
  }
}
