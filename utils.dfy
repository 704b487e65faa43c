/** The growable vector that backs every table and stack of the runtime,
    and the quoting routine used to display string constants.

    A vector's elements are described by the functions `SetAt`, `SetLength`
    and `PopLast` on sequences; the `Vector` class keeps an array, a size
    and a capacity and its methods are proved against those functions.
    The runtime modules apply the same functions to their own sequence
    fields, so vector semantics is stated once. */
module Utils {
  import opened Wrappers

  function Max(a: int, b: int): (r: int)
    ensures r >= a && r >= b
    ensures r == a || r == b
  {
    if a > b then a else b
  }

  //============================================================
  // Vector semantics on sequences
  //============================================================

  /** vector_get: fatal unless `0 <= i < |s|`. */
  function GetAt<T>(s: seq<T>, i: int): (r: Result<T>)
    ensures r.Ok? <==> 0 <= i < |s|
    ensures r.Ok? ==> r.value == s[i]
  {
    if i < 0 || i >= |s| then Fatal("Index out of bounds.") else Ok(s[i])
  }

  /** vector_peek: the last element; fatal when empty. */
  function PeekLast<T>(s: seq<T>): (r: Result<T>)
    ensures r.Ok? <==> |s| > 0
    ensures r.Ok? ==> r.value == s[|s| - 1]
  {
    if |s| == 0 then Fatal("Peek from empty vector.") else Ok(s[|s| - 1])
  }

  /** The decimal digits of `n`, as `printf("%d")` writes them. */
  function NatString(n: nat): (r: string)
    ensures |r| > 0 && forall k :: 0 <= k < |r| ==> '0' <= r[k] <= '9'
  {
    if n < 10 then [('0' as int + n) as char]
    else NatString(n / 10) + [('0' as int + n % 10) as char]
  }

  function IntString(x: int): string
  {
    if x < 0 then "-" + NatString(-x) else NatString(x)
  }

  /** vector_set: overwrite an element, or append when `i` is the size. */
  function SetAt<T>(s: seq<T>, i: int, x: T): (r: Result<seq<T>>)
    ensures r.Ok? <==> 0 <= i <= |s|
    ensures r.Ok? ==> |r.value| == (if i == |s| then |s| + 1 else |s|)
    ensures r.Ok? ==> r.value[i] == x
    ensures r.Ok? ==> forall j :: 0 <= j < |s| && j != i ==> r.value[j] == s[j]
  {
    if i < 0 || i > |s| then Fatal("Index out of bounds.")
    else if i == |s| then Ok(s + [x])
    else Ok(s[i := x])
  }

  /** `n` copies of `x`. */
  function Repeat<T>(n: nat, x: T): (r: seq<T>)
    ensures |r| == n && forall j :: 0 <= j < n ==> r[j] == x
  {
    seq(n, _ => x)
  }

  /** vector_set_length: truncate to `len`, or pad with `x` up to `len`. */
  function SetLength<T>(s: seq<T>, len: int, x: T): (r: Result<seq<T>>)
    ensures r.Ok? <==> len >= 0
    ensures r.Ok? ==> |r.value| == len
    ensures r.Ok? ==> forall j :: 0 <= j < len ==> r.value[j] == (if j < |s| then s[j] else x)
  {
    if len < 0 then Fatal("Negative length given to vector.")
    else if len <= |s| then Ok(s[..len])
    else Ok(s + seq(len - |s|, _ => x))
  }

  /** vector_pop: the last element and what remains below it. */
  function PopLast<T>(s: seq<T>): (r: Result<(T, seq<T>)>)
    ensures r.Ok? <==> |s| > 0
    ensures r.Ok? ==> s == r.value.1 + [r.value.0]
  {
    if |s| == 0 then Fatal("Pop from empty vector.")
    else Ok((s[|s| - 1], s[..|s| - 1]))
  }

  //============================================================
  // The Vector class
  //============================================================

  class Vector<T(0)> {
    var size: nat
    var capacity: nat
    var arr: array<T>

    ghost predicate Valid()
      reads this
    {
      arr.Length == capacity && size <= capacity && capacity > 0
    }

    /** The elements the vector holds, index 0 first. */
    ghost function Elems(): seq<T>
      reads this, arr
      requires Valid()
    {
      arr[..size]
    }

    /** make_vector: empty, with room for eight elements. */
    constructor ()
      ensures Valid() && fresh(arr)
      ensures size == 0 && capacity == 8 && Elems() == []
    {
      size := 0;
      capacity := 8;
      arr := new T[8];
    }

    /** vector_ensure_capacity: grows only when the capacity is below `c`,
        to the larger of twice the capacity and `c`, keeping the elements. */
    method EnsureCapacity(c: int)
      requires Valid()
      modifies this
      ensures Valid() && Elems() == old(Elems()) && size == old(size)
      ensures old(capacity) < c ==> capacity == Max(2 * old(capacity), c) && fresh(arr)
      ensures old(capacity) >= c ==> capacity == old(capacity) && arr == old(arr)
    {
      if capacity < c {
        var c2 := Max(capacity * 2, c);
        var a2 := new T[c2];
        var k := 0;
        while k < size
          modifies a2
          invariant 0 <= k <= size <= arr.Length && a2.Length == c2 && size <= c2
          invariant a2[..k] == arr[..k]
        {
          a2[k] := arr[k];
          k := k + 1;
        }
        capacity := c2;
        arr := a2;
      }
    }

    /** vector_add: store at index `size`, then count it. */
    method Add(x: T)
      requires Valid()
      modifies this, arr
      ensures Valid() && (arr == old(arr) || fresh(arr))
      ensures size == old(size) + 1
      ensures Elems() == old(Elems()) + [x]
    {
      EnsureCapacity(size + 1);
      arr[size] := x;
      size := size + 1;
    }

    /** vector_pop: fatal when empty; otherwise the last element, removed. */
    method Pop() returns (r: Result<T>)
      requires Valid()
      modifies this
      ensures Valid() && arr == old(arr) && capacity == old(capacity)
      ensures PopLast(old(Elems())).Ok? <==> r.Ok?
      ensures r.Ok? ==> r.value == PopLast(old(Elems())).value.0
                        && Elems() == PopLast(old(Elems())).value.1
      ensures r.Fatal? ==> size == old(size)
    {
      if size == 0 {
        return Fatal("Pop from empty vector.");
      }
      size := size - 1;
      r := Ok(arr[size]);
    }

    /** vector_peek: fatal when empty; otherwise the last element, kept. */
    method Peek() returns (r: Result<T>)
      requires Valid()
      ensures r.Ok? <==> size > 0
      ensures r.Ok? ==> r.value == Elems()[size - 1]
    {
      if size == 0 {
        return Fatal("Peek from empty vector.");
      }
      r := Ok(arr[size - 1]);
    }

    /** vector_clear */
    method Clear()
      requires Valid()
      modifies this
      ensures Valid() && arr == old(arr) && capacity == old(capacity)
      ensures Elems() == []
    {
      size := 0;
    }

    /** vector_get: fatal unless `0 <= i < size`. */
    method Get(i: int) returns (r: Result<T>)
      requires Valid()
      ensures r.Ok? <==> 0 <= i < size
      ensures r.Ok? ==> r.value == Elems()[i]
    {
      if i < 0 || i >= size {
        return Fatal("Index out of bounds.");
      }
      r := Ok(arr[i]);
    }

    /** vector_set: overwrite below `size`, append at `size`, fatal otherwise. */
    method Set(i: int, x: T) returns (r: Outcome)
      requires Valid()
      modifies this, arr
      ensures Valid() && (arr == old(arr) || fresh(arr))
      ensures r.Pass? <==> SetAt(old(Elems()), i, x).Ok?
      ensures r.Pass? ==> Elems() == SetAt(old(Elems()), i, x).value
      ensures r.Fail? ==> Elems() == old(Elems())
    {
      if i < 0 || i > size {
        return Fail("Index out of bounds.");
      } else if i == size {
        Add(x);
      } else {
        arr[i] := x;
      }
      r := Pass;
    }

    /** vector_set_length: fatal for a negative length, truncates when the
        length is at most the size, and otherwise adds `x` until it is reached. */
    method SetLen(len: int, x: T) returns (r: Outcome)
      requires Valid()
      modifies this, arr
      ensures Valid() && (arr == old(arr) || fresh(arr))
      ensures r.Pass? <==> SetLength(old(Elems()), len, x).Ok?
      ensures r.Pass? ==> Elems() == SetLength(old(Elems()), len, x).value
      ensures r.Fail? ==> Elems() == old(Elems())
    {
      if len < 0 {
        return Fail("Negative length given to vector.");
      }
      if len <= size {
        size := len;
      } else {
        ghost var start := Elems();
        while size < len
          invariant Valid() && (arr == old(arr) || fresh(arr))
          invariant |start| <= size <= len
          invariant Elems() == start + seq(size - |start|, _ => x)
          decreases len - size
        {
          Add(x);
        }
      }
      r := Pass;
    }
  }

  //============================================================
  // print_string
  //============================================================

  /** How one character is written inside double quotes. */
  function EscapeChar(c: char): string
  {
    if c == '\n' then "\\n"
    else if c == '\\' then "\\\\"
    else if c == '"' then "\\\""
    else [c]
  }

  /** The escaped form of a text: no raw newline survives, and every
      double quote and backslash is escaped with a backslash. */
  function Escaped(s: string): (r: string)
    ensures forall k :: 0 <= k < |r| ==> r[k] != '\n'
    ensures |r| >= |s|
  {
    if s == [] then [] else EscapeChar(s[0]) + Escaped(s[1..])
  }

  /** A C string ends at its first NUL character. */
  function CString(s: string): (r: string)
    ensures |r| <= |s| && r == s[..|r|]
    ensures '\0' !in r
    ensures |r| < |s| ==> s[|r|] == '\0'
  {
    if s == [] || s[0] == '\0' then [] else [s[0]] + CString(s[1..])
  }

  /** strcmp(a, b) == 0: the texts agree up to their terminating NUL. */
  predicate Same(a: string, b: string)
  {
    CString(a) == CString(b)
  }

  /** Reads an escaped text back; `None` when it is not one. */
  function Unescape(t: string): Option<string>
  {
    if t == [] then Some([])
    else if t[0] == '\\' then
      if |t| < 2 then None
      else
        var c := if t[1] == 'n' then Some('\n')
                 else if t[1] == '\\' then Some('\\')
                 else if t[1] == '"' then Some('"')
                 else None;
        match (c, Unescape(t[2..]))
        case (Some(x), Some(rest)) => Some([x] + rest)
        case _ => None
    else if t[0] == '"' || t[0] == '\n' then None
    else
      match Unescape(t[1..])
      case Some(rest) => Some([t[0]] + rest)
      case None => None
  }

  lemma {:induction false} UnescapeEscaped(s: string)
    ensures Unescape(Escaped(s)) == Some(s)
  {
    if s != [] {
      var e := Escaped(s);
      UnescapeEscaped(s[1..]);
      assert e == EscapeChar(s[0]) + Escaped(s[1..]);
      if s[0] == '\n' || s[0] == '\\' || s[0] == '"' {
        assert e[2..] == Escaped(s[1..]);
        assert [s[0]] + s[1..] == s;
      } else {
        assert e[0] == s[0] && e[1..] == Escaped(s[1..]);
        assert Unescape(e) == Some([s[0]] + s[1..]);
        assert [s[0]] + s[1..] == s;
      }
    }
  }

  lemma {:induction false} EscapedSnoc(s: string, c: char)
    ensures Escaped(s + [c]) == Escaped(s) + EscapeChar(c)
  {
    if s == [] {
      assert [c][1..] == [];
    } else {
      assert (s + [c])[1..] == s[1..] + [c];
      EscapedSnoc(s[1..], c);
    }
  }

  /** print_string: the text up to its first NUL, escaped, between double quotes. */
  method PrintString(str: string) returns (out: string)
    ensures out == "\"" + Escaped(CString(str)) + "\""
    ensures Unescape(out[1..|out| - 1]) == Some(CString(str))
  {
    out := "\"";
    var i := 0;
    while i < |str| && str[i] != '\0'
      invariant 0 <= i <= |str|
      invariant '\0' !in str[..i]
      invariant out == "\"" + Escaped(str[..i])
    {
      EscapedSnoc(str[..i], str[i]);
      assert str[..i + 1] == str[..i] + [str[i]];
      out := out + EscapeChar(str[i]);
      i := i + 1;
    }
    CStringOfPrefix(str, i);
    out := out + "\"";
    UnescapeEscaped(CString(str));
    assert out[1..|out| - 1] == Escaped(CString(str));
  }

  lemma {:induction false} CStringOfPrefix(s: string, i: nat)
    requires i <= |s| && '\0' !in s[..i]
    requires i == |s| || s[i] == '\0'
    ensures CString(s) == s[..i]
  {
    if i > 0 {
      assert s[0] in s[..i];
      assert s[1..][..i - 1] == s[1..i];
      assert forall c :: c in s[1..][..i - 1] ==> c in s[..i];
      CStringOfPrefix(s[1..], i - 1);
    }
  }
}
