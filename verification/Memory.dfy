/** The C library's block moves on arrays: memmove, memcpy between distinct arrays, memset. */
module Memory {

  /** Copies `count` elements within one array; the ranges may overlap. */
  method Memmove<T>(a: array<T>, dst: nat, src: nat, count: nat)
    requires dst + count <= a.Length && src + count <= a.Length
    modifies a
    ensures forall i :: 0 <= i < a.Length ==>
      a[i] == if dst <= i < dst + count then old(a[i - dst + src]) else old(a[i])
  {
    forall i | 0 <= i < count {
      a[dst + i] := a[src + i];
    }
  }

  /** Copies `count` elements from one array into another. */
  method Memcpy<T>(d: array<T>, dst: nat, s: array<T>, src: nat, count: nat)
    requires d != s
    requires dst + count <= d.Length && src + count <= s.Length
    modifies d
    ensures forall i :: 0 <= i < d.Length ==>
      d[i] == if dst <= i < dst + count then s[i - dst + src] else old(d[i])
  {
    forall i | 0 <= i < count {
      d[dst + i] := s[src + i];
    }
  }

  /** Fills `count` elements with one value. */
  method Memset<T>(a: array<T>, dst: nat, value: T, count: nat)
    requires dst + count <= a.Length
    modifies a
    ensures forall i :: 0 <= i < a.Length ==>
      a[i] == if dst <= i < dst + count then value else old(a[i])
  {
    forall i | 0 <= i < count {
      a[dst + i] := value;
    }
  }
}
