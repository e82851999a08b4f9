/** The numbering rule of a C++ unscoped `enum` declaration.

    An enumerator with an initializer takes that value; one without takes the
    value of the enumerator before it plus one; the first one, when it has no
    initializer, takes 0. The persisted codes of Field3D's Ogawa layer are
    defined this way, so the model derives them from the declaration rather
    than restating them. */
module CppEnum {

  import opened Optional

  /** One enumerator as declared: its name and its explicit initializer, if any. */
  datatype Enumerator<E> = Enumerator(name: E, init: Option<int>)

  /** The position of the last enumerator at or before position i that has an
      initializer, or -1 when none has. */
  function LastInit<E>(decl: seq<Enumerator<E>>, i: nat): (j: int)
    requires i < |decl|
    ensures -1 <= j <= i
    ensures j >= 0 ==> decl[j].init.Some?
    ensures forall k :: j < k <= i ==> decl[k].init.None?
  {
    if decl[i].init.Some? then i
    else if i == 0 then -1
    else LastInit(decl, i - 1)
  }

  /** The value C++ assigns to the i-th enumerator of `decl`, step by step. */
  function ValueAt<E>(decl: seq<Enumerator<E>>, i: nat): int
    requires i < |decl|
  {
    match decl[i].init
    case Some(v) => v
    case None => if i == 0 then 0 else ValueAt(decl, i - 1) + 1
  }

  /** The same value in closed form: the last initializer at or before the
      enumerator plus its distance from that one, or its position when no
      enumerator up to it has an initializer. */
  lemma {:induction false} ValueAtClosedForm<E>(decl: seq<Enumerator<E>>, i: nat)
    requires i < |decl|
    ensures var j := LastInit(decl, i);
      ValueAt(decl, i) == if j < 0 then i else decl[j].init.value + (i - j)
  {
    if decl[i].init.None? && i > 0 {
      ValueAtClosedForm(decl, i - 1);
    }
  }

  /** No enumerator strictly after position j, up to and including position i, has an initializer. */
  predicate ImplicitBetween<E>(decl: seq<Enumerator<E>>, j: nat, i: nat)
    requires j <= i < |decl|
  {
    forall k :: j < k <= i ==> decl[k].init.None?
  }

  /** A run of enumerators without initializers is numbered consecutively. */
  lemma {:induction false} Consecutive<E>(decl: seq<Enumerator<E>>, j: nat, i: nat)
    requires j <= i < |decl|
    requires ImplicitBetween(decl, j, i)
    ensures ValueAt(decl, i) == ValueAt(decl, j) + (i - j)
  {
    if i > j {
      assert decl[i].init.None?;
      Consecutive(decl, j, i - 1);
    }
  }

  /** The value of an enumerator depends only on the declaration up to it:
      whatever follows it may change without changing its value. */
  lemma {:induction false} ValueAtPrefix<E>(decl: seq<Enumerator<E>>, decl': seq<Enumerator<E>>, i: nat)
    requires i < |decl| && i < |decl'|
    requires decl[..i + 1] == decl'[..i + 1]
    ensures ValueAt(decl, i) == ValueAt(decl', i)
  {
    assert decl[i] == decl[..i + 1][i] == decl'[..i + 1][i] == decl'[i];
    if decl[i].init.None? && i > 0 {
      assert decl[..i] == decl[..i + 1][..i] == decl'[..i + 1][..i] == decl'[..i];
      ValueAtPrefix(decl, decl', i - 1);
    }
  }

  /** Inserting a new enumerator at any position k leaves every earlier
      enumerator's value unchanged, and every later enumerator that carries an
      explicit initializer keeps its value too. */
  lemma InsertKeepsValues<E>(decl: seq<Enumerator<E>>, e: Enumerator<E>, k: nat)
    requires k <= |decl|
    ensures var decl' := decl[..k] + [e] + decl[k..];
      && |decl'| == |decl| + 1
      && (forall i :: 0 <= i < k ==> ValueAt(decl', i) == ValueAt(decl, i))
      && (forall i :: k <= i < |decl| && decl[i].init.Some? ==> ValueAt(decl', i + 1) == ValueAt(decl, i))
  {
    var decl' := decl[..k] + [e] + decl[k..];
    forall i | 0 <= i < k
      ensures ValueAt(decl', i) == ValueAt(decl, i)
    {
      assert decl'[..i + 1] == decl[..i + 1];
      ValueAtPrefix(decl', decl, i);
    }
    forall i | k <= i < |decl| && decl[i].init.Some?
      ensures ValueAt(decl', i + 1) == ValueAt(decl, i)
    {
      assert decl'[i + 1] == decl[i];
    }
  }

  /** Inserting a new enumerator without initializer at position k moves each
      later enumerator up by one, as long as no enumerator from k up to it has
      an initializer of its own. */
  lemma {:induction false} InsertShiftsImplicit<E>(decl: seq<Enumerator<E>>, e: Enumerator<E>, k: nat, i: nat)
    requires e.init.None?
    requires k <= i < |decl|
    requires forall j :: k <= j <= i ==> decl[j].init.None?
    ensures ValueAt(decl[..k] + [e] + decl[k..], i + 1) == ValueAt(decl, i) + 1
  {
    var decl' := decl[..k] + [e] + decl[k..];
    assert decl'[i + 1] == decl[i];
    if i == k {
      assert decl'[k] == e;
      if k > 0 {
        InsertKeepsValues(decl, e, k);
        assert ValueAt(decl', k - 1) == ValueAt(decl, k - 1);
      }
    } else {
      InsertShiftsImplicit(decl, e, k, i - 1);
    }
  }
}
