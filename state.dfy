/** The type-keyed container of src/core/state.rs: one value per kind, stored by
    `put`, observed by `has`/`borrow`, edited by `borrow_mut`, removed by `take`. */
module CoreState {
  import opened Wrappers
  import opened CoreTypes

  class State {
    var data: map<Kind, ModVal>

    /** `State::new`: no entries. */
    constructor()
      ensures data == map[]
    {
      data := map[];
    }

    /** `put`: stores v under k, replacing an earlier value of that kind. */
    method Put(k: Kind, v: ModVal)
      modifies this
      ensures data == old(data)[k := v]
    {
      data := data[k := v];
    }

    /** `has`: whether a value of kind k is stored. */
    method Has(k: Kind) returns (b: bool)
      ensures b <==> k in data
    {
      b := k in data;
    }

    /** `borrow`: the stored value, or the "not present in State container" error. */
    method Borrow(k: Kind) returns (r: Result<ModVal, Error>)
      ensures k in data ==> r == Ok(data[k])
      ensures k !in data ==> r == Err(NotPresent(k))
    {
      if k in data {
        r := Ok(data[k]);
      } else {
        r := Err(NotPresent(k));
      }
    }

    /** `borrow_mut` followed by the caller's edit through the returned reference:
        the edit (appending `adds`) is what later `borrow`/`take` of k see. */
    method BorrowMut(k: Kind, adds: seq<Item>) returns (r: Result<ModVal, Error>)
      modifies this
      ensures k in old(data) ==> data == old(data)[k := Extend(old(data)[k], adds)] && r == Ok(data[k])
      ensures k !in old(data) ==> data == old(data) && r == Err(NotPresent(k))
    {
      if k in data {
        data := data[k := Extend(data[k], adds)];
        r := Ok(data[k]);
      } else {
        r := Err(NotPresent(k));
      }
    }

    /** `take`: removes the value and returns it by value; taking an absent kind fails
        and changes nothing. */
    method Take(k: Kind) returns (r: Result<ModVal, Error>)
      modifies this
      ensures k in old(data) ==> r == Ok(old(data)[k]) && data == old(data) - {k}
      ensures k !in old(data) ==> r == Err(NotPresent(k)) && data == old(data)
    {
      if k in data {
        r := Ok(data[k]);
        data := data - {k};
      } else {
        r := Err(NotPresent(k));
      }
    }
  }
}
