/** The associates table and its lookup by id. */
module Associates {
  import opened Common

  /** The parts of an associate the model uses (descriptions and logos are
      display data). */
  datatype Associate = Associate(id: string, name: string)

  const ASSOCIATES: seq<Associate> := [
    Associate("big-mike-cumming", "Big Mike Cumming"),
    Associate("wojaplers", "Wojaplers"),
    Associate("ball-hair-pranks", "Ball Hair Pranks"),
    Associate("salmon-skin", "Salmon Skin"),
    Associate("buttloader", "ButtLoader")]

  /** `find`: the first entry of `table` with the given id. */
  function FindById(table: seq<Associate>, id: string): (r: Option<Associate>)
    ensures r.Some? ==> r.value in table && r.value.id == id
    ensures r.None? <==> forall a | a in table :: a.id != id
    ensures r.Some? ==> exists i | 0 <= i < |table| :: table[i] == r.value && forall j | 0 <= j < i :: table[j].id != id
  {
    if |table| == 0 then None
    else if table[0].id == id then Some(table[0])
    else FindById(table[1..], id)
  }

  /** `getAssociateById`. */
  function GetAssociateById(id: string): (r: Option<Associate>)
    ensures r.Some? ==> r.value in ASSOCIATES && r.value.id == id
    ensures r.None? <==> forall a | a in ASSOCIATES :: a.id != id
  {
    FindById(ASSOCIATES, id)
  }

  predicate DistinctIds(table: seq<Associate>)
  {
    forall i, j | 0 <= i < j < |table| :: table[i].id != table[j].id
  }

  /** In a table with distinct ids, the lookup finds the one entry with
      that id. */
  lemma {:induction false} FindUnique(table: seq<Associate>, a: Associate)
    requires DistinctIds(table) && a in table
    ensures FindById(table, a.id) == Some(a)
    decreases |table|
  {
    if table[0] != a {
      assert table[0].id != a.id by {
        var k :| 0 <= k < |table| && table[k] == a;
        assert k > 0;
      }
      assert forall i, j | 0 <= i < j < |table[1..]| :: table[1..][i] == table[i + 1] && table[1..][j] == table[j + 1];
      FindUnique(table[1..], a);
    }
  }

  /** The table's ids are distinct, so every associate is found by its id. */
  lemma LookupUnambiguous(a: Associate)
    requires a in ASSOCIATES
    ensures GetAssociateById(a.id) == Some(a)
  {
    assert DistinctIds(ASSOCIATES);
    FindUnique(ASSOCIATES, a);
  }
}
