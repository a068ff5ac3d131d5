/** SQL values, as far as the JSON functions and the expression evaluator look into them. */
module SqlValues {
  import opened JsonDocument

  type i16 = x: int | -0x8000 <= x < 0x8000
  type i32 = x: int | -0x8000_0000 <= x < 0x8000_0000
  type i64 = x: int | -0x8000_0000_0000_0000 <= x < 0x8000_0000_0000_0000

  /** `Other` stands for every variant the modelled code never looks into. */
  datatype Value =
    | SqlNull
    | Boolean(b: bool)
    | Int2(i2: i16)
    | Int4(i4: i32)
    | Int8(i8: i64)
    | Text(s: string)
    | Json(doc: Doc)
    | Array(elems: seq<Value>)
    | Other(tag: string)

  /** Rust's `as i32`: keep the low 32 bits and read them as a signed number. */
  function WrapI32(x: int): (r: i32)
    ensures (r - x) % 0x1_0000_0000 == 0
  {
    (x + 0x8000_0000) % 0x1_0000_0000 - 0x8000_0000
  }

  /** There is only one signed 32-bit number in each residue class. */
  lemma WrapUnique(x: int, r: i32)
    requires (r - x) % 0x1_0000_0000 == 0
    ensures WrapI32(x) == r
  {
    var m := 0x1_0000_0000;
    assert (WrapI32(x) - r) % m == 0 by {
      assert (WrapI32(x) - x) % m == 0;
      var a, b := (WrapI32(x) - x) / m, (r - x) / m;
      assert WrapI32(x) - r == m * (a - b);
    }
  }
}
