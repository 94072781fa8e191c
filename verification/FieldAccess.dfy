/** What a layout is for: every field holds every value of its kind, and storing to one field changes no other.  Nothing here but
    the proofs looks at the sizes and alignments that the layout was computed from. */
module FieldAccess {
  import opened FieldLayout

  /** How many values a variable of each kind has (Java Virtual Machine Specification, sections 2.3 and 2.4; an address has 64 bits). */
  function Values(k: Kind): nat {
    match k
    case Boolean => 0x100 case Byte => 0x100
    case Char => 0x1_0000 case Short => 0x1_0000
    case Int => 0x1_0000_0000 case Float => 0x1_0000_0000
    case Long => 0x1_0000_0000_0000_0000 case Double => 0x1_0000_0000_0000_0000 case Reference => 0x1_0000_0000_0000_0000
  }

  // ---------- numbers as bytes ----------

  /** As many bytes as it takes to tell `values` numbers apart, least significant first. */
  function Digits(v: nat, values: nat): seq<nat> {
    if values <= 1 then [] else [v % 256] + Digits(v / 256, values / 256)
  }

  function Number(bytes: seq<nat>): nat {
    if bytes == [] then 0 else bytes[0] + 256 * Number(bytes[1..])
  }

  function Width(values: nat): nat { |Digits(0, values)| }

  ghost predicate IsPower(values: nat) {
    values == 1 || (0 < values && values % 256 == 0 && IsPower(values / 256))
  }

  lemma {:induction false} DigitsWidth(v: nat, values: nat)
    ensures |Digits(v, values)| == Width(values)
    decreases values
  {
    if values > 1 {
      DigitsWidth(v / 256, values / 256);
      DigitsWidth(0 / 256, values / 256);
    }
  }

  lemma {:induction false} NumberOfDigits(v: nat, values: nat)
    requires IsPower(values) && v < values
    ensures Number(Digits(v, values)) == v
    decreases values
  {
    if values > 1 {
      assert v / 256 < values / 256 by { assert values == 256 * (values / 256); }
      NumberOfDigits(v / 256, values / 256);
      assert ([v % 256] + Digits(v / 256, values / 256))[1..] == Digits(v / 256, values / 256);
    }
  }

  // ---------- access to memory ----------

  /** Store a variable of kind `k` at byte `at`. */
  function Put(mem: seq<nat>, at: nat, k: Kind, v: nat): (mem': seq<nat>)
    requires at + Width(Values(k)) <= |mem|
    ensures |mem'| == |mem|
  {
    DigitsWidth(v, Values(k));
    mem[..at] + Digits(v, Values(k)) + mem[at + Width(Values(k))..]
  }

  /** Load a variable of kind `k` from byte `at`. */
  function Get(mem: seq<nat>, at: nat, k: Kind): nat
    requires at + Width(Values(k)) <= |mem|
  {
    Number(mem[at..at + Width(Values(k))])
  }

  lemma GetPut(mem: seq<nat>, at: nat, k: Kind, v: nat)
    requires at + Width(Values(k)) <= |mem| && v < Values(k)
    ensures Get(Put(mem, at, k, v), at, k) == v
  {
    DigitsWidth(v, Values(k));
    KindPower(k);
    NumberOfDigits(v, Values(k));
    hide Digits, Values;
    assert Put(mem, at, k, v)[at..at + Width(Values(k))] == Digits(v, Values(k));
  }

  lemma GetOther(mem: seq<nat>, at: nat, k: Kind, v: nat, b: nat, l: Kind)
    requires at + Width(Values(k)) <= |mem| && b + Width(Values(l)) <= |mem|
    requires at + Width(Values(k)) <= b || b + Width(Values(l)) <= at
    ensures Get(Put(mem, at, k, v), b, l) == Get(mem, b, l)
  {
    DigitsWidth(v, Values(k));
    SliceApart(mem, Digits(v, Values(k)), at, b, Width(Values(l)));
  }

  /** Replacing some bytes keeps those before and behind them. */
  lemma SliceApart(mem: seq<nat>, d: seq<nat>, at: nat, b: nat, w: nat)
    requires at + |d| <= |mem| && b + w <= |mem| && (at + |d| <= b || b + w <= at)
    ensures (mem[..at] + d + mem[at + |d|..])[b..b + w] == mem[b..b + w]
  {
    if b + w <= at {
      assert mem[..at][b..b + w] == mem[b..b + w];
    } else {
      assert mem[at + |d|..][b - at - |d|..b + w - at - |d|] == mem[b..b + w];
    }
  }

  lemma KindPower(k: Kind)
    ensures IsPower(Values(k))
  {
    SizeIsWidth(k);
    PowerWidth(Size(k));
  }

  // ---------- the sizes that the layout reserves ----------

  /** The values of a kind fit exactly in the bytes reserved for it. */
  lemma SizeIsWidth(k: Kind)
    ensures Size(k) == Width(Values(k))
    ensures Power256(Size(k)) == Values(k)
  {
    PowerWidth(Size(k));
    Powers();
  }

  function Power256(n: nat): nat { if n == 0 then 1 else 256 * Power256(n - 1) }

  lemma {:induction false} PowerWidth(n: nat)
    ensures 0 < Power256(n) && IsPower(Power256(n)) && Width(Power256(n)) == n
  {
    if n > 0 {
      PowerWidth(n - 1);
      assert Power256(n) / 256 == Power256(n - 1) && Power256(n) % 256 == 0;
    }
  }

  lemma {:induction false} PowerSum(m: nat, n: nat)
    ensures Power256(m + n) == Power256(m) * Power256(n)
  {
    if m > 0 {
      PowerSum(m - 1, n);
      Reassociate(256, Power256(m - 1), Power256(n));
    }
  }

  lemma Reassociate(a: nat, b: nat, c: nat)
    ensures a * (b * c) == (a * b) * c
  {
  }

  lemma Powers()
    ensures Power256(1) == 0x100 && Power256(2) == 0x1_0000 && Power256(4) == 0x1_0000_0000
    ensures Power256(8) == 0x1_0000_0000_0000_0000
  {
    assert Power256(1) == 256 * Power256(0);
    PowerSum(1, 1);
    PowerSum(2, 2);
    PowerSum(4, 4);
  }

  // ---------- instance fields ----------

  /** Field `f` of an object at byte `at` lies behind the object header and within the object. */
  ghost predicate InObject(l: Layout, f: Placed) {
    OBJECT_HEADER <= f.offset && f.offset + Width(Values(f.kind)) <= l.bytes
  }

  /** A store to the i-th field of an object is read back from it, and from no other field; the header and whatever lies outside
      the object stay the same. */
  lemma FieldsIndependent(l: Layout, i: nat, j: nat, mem: seq<nat>, at: nat, v: nat)
    requires LayoutOk(l) && i < |l.fields| && j < |l.fields| && i != j && at + l.bytes <= |mem| && v < Values(l.fields[i].kind)
    ensures InObject(l, l.fields[i]) && InObject(l, l.fields[j])
    ensures var mem' := Put(mem, at + l.fields[i].offset, l.fields[i].kind, v);
            && Get(mem', at + l.fields[i].offset, l.fields[i].kind) == v
            && Get(mem', at + l.fields[j].offset, l.fields[j].kind) == Get(mem, at + l.fields[j].offset, l.fields[j].kind)
            && mem'[..at + OBJECT_HEADER] == mem[..at + OBJECT_HEADER] && mem'[at + l.bytes..] == mem[at + l.bytes..]
  {
    var f, g := l.fields[i], l.fields[j];
    assert Within(f, OBJECT_HEADER, l.bytes) && Within(g, OBJECT_HEADER, l.bytes);
    assert if i < j then Apart(f, g) else Apart(g, f);
    SizeIsWidth(f.kind);
    SizeIsWidth(g.kind);
    GetPut(mem, at + f.offset, f.kind, v);
    GetOther(mem, at + f.offset, f.kind, v, at + g.offset, g.kind);
    hide LayoutOk, Size, Values, Get, Digits;
    DigitsWidth(v, Values(f.kind));
  }

  // ---------- static fields ----------

  /** The same for the static fields of a class, in their own memory. */
  lemma StaticsIndependent(fields: seq<Field>, order: seq<nat>, base: nat, offsets: seq<nat>, bytes: nat,
                           instanceBytes: nat, i: nat, j: nat, mem: seq<nat>, v: nat)
    requires LaidOut(fields, order, base, offsets) && EndsAt(fields, order, base, bytes, instanceBytes) && i < |fields|
             && j < |fields| && i != j && fields[i].isStatic && fields[j].isStatic
    requires bytes <= |mem| && v < Values(fields[i].kind)
    ensures |offsets| == |fields|
    ensures offsets[i] + Width(Values(fields[i].kind)) <= bytes && offsets[j] + Width(Values(fields[j].kind)) <= bytes
    ensures var mem' := Put(mem, offsets[i], fields[i].kind, v);
            && Get(mem', offsets[i], fields[i].kind) == v
            && Get(mem', offsets[j], fields[j].kind) == Get(mem, offsets[j], fields[j].kind)
  {
    var a := FieldBounds(fields, order, base, offsets, i);
    var b := FieldBounds(fields, order, base, offsets, j);
    FieldsDisjoint(fields, order, base, offsets, i, j);
    SizeIsWidth(fields[i].kind);
    SizeIsWidth(fields[j].kind);
    hide LaidOut, Cursor, Size, Values, Get, Put, Digits;
    GetPut(mem, offsets[i], fields[i].kind, v);
    GetOther(mem, offsets[i], fields[i].kind, v, offsets[j], fields[j].kind);
  }
}
