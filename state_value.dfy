/**
 * The `State` value class: a state name normalised to upper case, compared
 * ignoring case and hashed through its lower-case form.
 */
module StateValue {
  import opened Text

  /** A name as the constructor stores it: already upper case. */
  type NormalName = s: string | IsUpperCase(s) witness ""

  datatype State = State(name: NormalName)

  /** A reference to a `State` object: its identity and its value. */
  datatype StateRef = StateRef(address: nat, value: State)

  /** Two references to one object see one value. */
  predicate SameHeap(a: StateRef, b: StateRef)
  {
    a.address == b.address ==> a.value == b.value
  }

  /** What `equals(Object o)` may be handed. */
  datatype JavaObject = Null | AState(ref: StateRef) | NotAState(address: nat)

  const TwoTo32: int := 0x1_0000_0000
  const TwoTo31: int := 0x8000_0000

  /** `new State(name)`: the name is stored upper-cased. */
  function NewState(name: string): (s: State)
    ensures EqualsIgnoreCase(s.name, name)
    ensures forall i :: 0 <= i < |name| ==> !IsLowerLetter(s.name[i])
  {
    UpperIdempotent(name);
    State(Upper(name))
  }

  /** `getName()`. */
  function GetName(s: State): (n: string)
    ensures IsUpperCase(n)
  {
    s.name
  }

  /** `toString()`: the normalised name, the same text `getName()` returns. */
  function ToString(s: State): (t: string)
    ensures t == GetName(s)
    ensures IsUpperCase(t)
  {
    s.name
  }

  /** `this.equals(o)`. */
  predicate Equals(self: StateRef, o: JavaObject)
  {
    if o.AState? && o.ref.address == self.address then true
    else if !o.AState? then false
    else EqualsIgnoreCase(self.value.name, o.ref.value.name)
  }

  /** The 32-bit `String.hashCode()` of `s`, as an unsigned residue:
      h = 31 * h + c over the characters, modulo 2^32. */
  function StringHashBits(s: string): (h: nat)
    ensures h < TwoTo32
  {
    if s == [] then 0 else (31 * StringHashBits(s[..|s| - 1]) + s[|s| - 1] as int) % TwoTo32
  }

  /** Reinterprets 32 bits as a signed Java `int`. */
  function ToInt32(u: nat): (r: int)
    requires u < TwoTo32
    ensures -TwoTo31 <= r < TwoTo31
    ensures (r - u) % TwoTo32 == 0
  {
    if u < TwoTo31 then u else u - TwoTo32
  }

  /** `hashCode()`: `Objects.hash(name.toLowerCase())`, which is
      31 * 1 + the string's hash, wrapped to 32 bits. */
  function HashCode(s: State): (h: int)
    ensures -TwoTo31 <= h < TwoTo31
  {
    ToInt32((31 + StringHashBits(Lower(s.name))) % TwoTo32)
  }

  /** Whatever name it is given, a State's name is upper case. */
  lemma NameIsUpperCase(name: string)
    ensures IsUpperCase(GetName(NewState(name)))
    ensures GetName(NewState(name)) == Upper(name)
  {
  }

  /** Two names that differ only in case give equal States. */
  lemma {:induction false} NewStateIgnoresCase(a: string, b: string)
    requires EqualsIgnoreCase(a, b)
    ensures NewState(a) == NewState(b)
  {
    EqualsIgnoreCaseIffSameUpper(a, b);
  }

  /** `equals` is true for the same reference and false for null and for
      objects that are not States. */
  lemma EqualsIdentityAndType(self: StateRef, o: JavaObject)
    ensures Equals(self, AState(self))
    ensures o.Null? || o.NotAState? ==> !Equals(self, o)
  {
  }

  /** Between distinct States, `equals` compares the names ignoring case. */
  lemma {:induction false} EqualsComparesNames(self: StateRef, other: StateRef)
    requires SameHeap(self, other)
    ensures Equals(self, AState(other)) <==> Upper(self.value.name) == Upper(other.value.name)
  {
    EqualsIgnoreCaseIffSameUpper(self.value.name, other.value.name);
    if other.address == self.address {
      assert Upper(self.value.name) == self.value.name;
    }
  }

  /** The names of equal States differ only in case. */
  lemma {:induction false} EqualsMeansSameName(self: StateRef, other: StateRef)
    requires SameHeap(self, other)
    requires Equals(self, AState(other))
    ensures self.value == other.value
  {
    EqualsComparesNames(self, other);
  }

  /** Equal States have equal hash codes. */
  lemma {:induction false} EqualsImpliesSameHash(self: StateRef, other: StateRef)
    requires SameHeap(self, other)
    requires Equals(self, AState(other))
    ensures HashCode(self.value) == HashCode(other.value)
  {
    EqualsMeansSameName(self, other);
  }
}
