/** What several modules share: optional values, page sizes, and the way a page number splits into table indices. */
module Common {

  datatype Option<T> = None | Some(value: T)

  const SIZE_4KB: nat := 0x1000
  const SIZE_2MB: nat := 0x20_0000

  /** Pages of 4KB covered by one entry of a table at this level: 4KB, 2MB and 1GB for levels 1 to 3. */
  function Span(level: nat): (r: nat)
    ensures r > 0
  {
    if level <= 1 then 1 else if level == 2 then 512 else if level == 3 then 262144
    else if level == 4 then 134217728 else 68719476736
  }

  /** The number of the entry at this level that page v is under, counted from address 0: v / Span(level). */
  function At(v: nat, level: nat): nat {
    if level <= 1 then v else if level == 2 then v / 512 else if level == 3 then v / 262144
    else if level == 4 then v / 134217728 else v / 68719476736
  }

  /** The index of page v in a table at this level. */
  function Index(v: nat, level: nat): (r: nat)
    ensures r < 512
  {
    At(v, level) % 512
  }
}
