/** A metric's identity: an immutable (scope, name) pair with value equality, a hash
    consistent with it, a total order (scope first, then name) and the text form
    `scope:name`. */
module MetricNames {
  import opened JavaNumerics

  /** Java's `String.compareTo`: the difference of the first differing characters, or,
      when one string is a prefix of the other, the difference of the lengths. */
  function CompareStrings(a: string, b: string): int
  {
    if a == [] || b == [] then |a| - |b|
    else if a[0] != b[0] then a[0] as int - b[0] as int
    else CompareStrings(a[1..], b[1..])
  }

  /** Lexicographic order on character sequences, stated independently of CompareStrings:
      `a` is a proper prefix of `b`, or they first differ at a position where `a` is smaller. */
  ghost predicate LexLess(a: string, b: string)
  {
    (|a| < |b| && a == b[..|a|]) ||
    (exists k :: 0 <= k < |a| && k < |b| && a[..k] == b[..k] && a[k] < b[k])
  }

  lemma {:induction false} CompareStringsZeroIffEqual(a: string, b: string)
    ensures CompareStrings(a, b) == 0 <==> a == b
  {
    if a != [] && b != [] && a[0] == b[0] {
      CompareStringsZeroIffEqual(a[1..], b[1..]);
      assert a == [a[0]] + a[1..] && b == [b[0]] + b[1..];
    }
  }

  lemma {:induction false} CompareStringsAntisymmetric(a: string, b: string)
    ensures CompareStrings(b, a) == -CompareStrings(a, b)
  {
    if a != [] && b != [] && a[0] == b[0] {
      CompareStringsAntisymmetric(a[1..], b[1..]);
    }
  }

  lemma {:induction false} CompareStringsTransitive(a: string, b: string, c: string)
    requires CompareStrings(a, b) < 0 && CompareStrings(b, c) < 0
    ensures CompareStrings(a, c) < 0
  {
    if a != [] && b != [] && c != [] && a[0] == b[0] && b[0] == c[0] {
      CompareStringsTransitive(a[1..], b[1..], c[1..]);
    }
  }

  /** CompareStrings orders strings exactly as lexicographic order does. */
  lemma {:induction false} CompareStringsIsLexicographic(a: string, b: string)
    ensures CompareStrings(a, b) < 0 <==> LexLess(a, b)
  {
    if a == [] || b == [] {
      if a == [] && b != [] {
        assert a == b[..0];
      }
    } else if a[0] != b[0] {
      if a[0] < b[0] {
        assert a[..0] == b[..0];
      }
      if LexLess(a, b) && !(|a| < |b| && a == b[..|a|]) {
        var k :| 0 <= k < |a| && k < |b| && a[..k] == b[..k] && a[k] < b[k];
        if k > 0 {
          assert a[..k][0] == b[..k][0];
        }
      }
    } else {
      CompareStringsIsLexicographic(a[1..], b[1..]);
      LexLessTail(a, b);
    }
  }

  /** With equal first characters, lexicographic order is decided by the tails. */
  lemma LexLessTail(a: string, b: string)
    requires a != [] && b != [] && a[0] == b[0]
    ensures LexLess(a, b) <==> LexLess(a[1..], b[1..])
  {
    var a', b' := a[1..], b[1..];
    if LexLess(a', b') {
      if |a'| < |b'| && a' == b'[..|a'|] {
        assert a == [a[0]] + a' && b[..|a|] == [b[0]] + b'[..|a'|];
      } else {
        var k :| 0 <= k < |a'| && k < |b'| && a'[..k] == b'[..k] && a'[k] < b'[k];
        assert a[..k + 1] == [a[0]] + a'[..k] && b[..k + 1] == [b[0]] + b'[..k];
        assert a[k + 1] < b[k + 1];
      }
    }
    if LexLess(a, b) {
      if |a| < |b| && a == b[..|a|] {
        assert a' == b'[..|a'|];
      } else {
        var k :| 0 <= k < |a| && k < |b| && a[..k] == b[..k] && a[k] < b[k];
        assert k != 0;
        assert a'[..k - 1] == a[..k][1..] && b'[..k - 1] == b[..k][1..];
        assert a'[k - 1] < b'[k - 1];
      }
    }
  }

  /** A reference to any object, as the argument of Java's `equals(Object)` sees it. */
  datatype Object = Null | OtherClass | Name(value: MetricName)

  datatype MetricName = MetricName(scope: string, name: string)
  {
    function GetScope(): string { scope }

    function GetName(): string { name }

    /** `scope + ':' + name` */
    function ToString(): (s: string)
      ensures |s| == |scope| + 1 + |name|
      ensures s[..|scope|] == scope && s[|scope|] == ':' && s[|scope| + 1..] == name
    {
      scope + [':'] + name
    }

    /** `equals(Object)`: false for null and for objects of another class, otherwise
        field-by-field string equality. */
    predicate Equals(o: Object)
    {
      match o
      case Null => false
      case OtherClass => false
      case Name(that) =>
        if scope != that.scope then false
        else if name != that.name then false
        else true
    }

    /** `hashCode()`, given Java's `String.hashCode` as `strHash`. */
    function HashCode(strHash: string -> int32): int32
    {
      var result := strHash(scope);
      Wrap32(Wrap32(31 * result as int) as int + strHash(name) as int)
    }

    /** `compareTo(MetricName)` */
    function CompareTo(other: MetricName): int
    {
      var result := CompareStrings(scope, other.scope);
      if result != 0 then result else CompareStrings(name, other.name)
    }
  }

  lemma AccessorsReturnArguments(scope: string, name: string)
    ensures MetricName(scope, name).GetScope() == scope
    ensures MetricName(scope, name).GetName() == name
  {
  }

  /** `equals` is value equality of the pair: reflexive, symmetric, never true of null
      or of another class. */
  lemma EqualsIsValueEquality(a: MetricName, o: Object)
    ensures a.Equals(o) <==> o == Name(a)
    ensures a.Equals(Name(a))
    ensures o.Name? ==> (a.Equals(o) <==> o.value.Equals(Name(a)))
  {
  }

  /** The hash is the 32-bit wrap of `31 * hash(scope) + hash(name)`, so equal names hash
      equally. */
  lemma {:induction false} HashCodeIsWrappedCombination(a: MetricName, b: MetricName, strHash: string -> int32)
    ensures a.HashCode(strHash) == Wrap32(31 * strHash(a.scope) as int + strHash(a.name) as int)
    ensures a.Equals(Name(b)) ==> a.HashCode(strHash) == b.HashCode(strHash)
  {
    Wrap32AddLeft(31 * strHash(a.scope) as int, strHash(a.name) as int);
  }

  /** Different scopes decide the comparison; the names are consulted only on equal scopes. */
  lemma CompareToScopeFirst(a: MetricName, b: MetricName)
    ensures a.scope != b.scope ==> a.CompareTo(b) == CompareStrings(a.scope, b.scope)
    ensures a.scope == b.scope ==> a.CompareTo(b) == CompareStrings(a.name, b.name)
  {
    CompareStringsZeroIffEqual(a.scope, b.scope);
  }

  /** `compareTo` is consistent with `equals`. */
  lemma CompareToZeroIffEquals(a: MetricName, b: MetricName)
    ensures a.CompareTo(b) == 0 <==> a.Equals(Name(b))
  {
    CompareStringsZeroIffEqual(a.scope, b.scope);
    CompareStringsZeroIffEqual(a.name, b.name);
  }

  lemma CompareToAntisymmetric(a: MetricName, b: MetricName)
    ensures b.CompareTo(a) == -a.CompareTo(b)
  {
    CompareStringsAntisymmetric(a.scope, b.scope);
    CompareStringsAntisymmetric(a.name, b.name);
  }

  lemma CompareToTransitive(a: MetricName, b: MetricName, c: MetricName)
    requires a.CompareTo(b) < 0 && b.CompareTo(c) < 0
    ensures a.CompareTo(c) < 0
  {
    CompareStringsZeroIffEqual(a.scope, b.scope);
    CompareStringsZeroIffEqual(b.scope, c.scope);
    CompareStringsZeroIffEqual(a.scope, c.scope);
    if a.scope == b.scope && b.scope == c.scope {
      CompareStringsTransitive(a.name, b.name, c.name);
    } else if a.scope == b.scope {
      assert a.CompareTo(c) == CompareStrings(b.scope, c.scope);
    } else if b.scope == c.scope {
      assert a.CompareTo(c) == CompareStrings(a.scope, b.scope);
    } else {
      CompareStringsTransitive(a.scope, b.scope, c.scope);
    }
  }

  /** `compareTo` orders pairs lexicographically: by scope, then by name. */
  lemma CompareToIsLexicographic(a: MetricName, b: MetricName)
    ensures a.CompareTo(b) < 0 <==> LexLess(a.scope, b.scope) || (a.scope == b.scope && LexLess(a.name, b.name))
  {
    CompareToScopeFirst(a, b);
    CompareStringsIsLexicographic(a.scope, b.scope);
    CompareStringsIsLexicographic(a.name, b.name);
    CompareStringsZeroIffEqual(a.scope, b.scope);
    if a.scope == b.scope {
      assert !LexLess(a.scope, b.scope) by { CompareStringsZeroIffEqual(a.scope, a.scope); }
    }
  }

  /** Exactly one of less, equal and greater holds between any two names. */
  lemma CompareToTrichotomy(a: MetricName, b: MetricName)
    ensures a.CompareTo(b) < 0 ==> a != b && !(b.CompareTo(a) < 0)
    ensures b.CompareTo(a) < 0 ==> a != b && !(a.CompareTo(b) < 0)
    ensures a != b ==> a.CompareTo(b) < 0 || b.CompareTo(a) < 0
  {
    CompareToZeroIffEquals(a, b);
    CompareToAntisymmetric(a, b);
  }

  /** With a colon-free scope the text form determines the name... */
  lemma ToStringInjective(a: MetricName, b: MetricName)
    requires ':' !in a.scope && ':' !in b.scope
    requires a.ToString() == b.ToString()
    ensures a == b
  {
  }

  /** ...but the separator is not escaped, so a colon inside the scope or the name can
      make two different names print alike. */
  lemma ToStringNotEscaped()
    ensures MetricName("a:b", "c").ToString() == MetricName("a", "b:c").ToString()
    ensures MetricName("a:b", "c") != MetricName("a", "b:c")
  {
    assert MetricName("a:b", "c").scope != MetricName("a", "b:c").scope;
  }
}
