/** The one-line address shown on a property listing. */
module Properties {
  import opened Common

  datatype Address = Address(
    street: string,
    number: string,
    complement: Option<string>,
    neighborhood: string,
    city: string,
    state: string,
    zipCode: string)

  /** The `${complement ? `, ${complement}` : ''}` piece: nothing for an
      absent or empty complement. */
  function ComplementPart(complement: Option<string>): (part: string)
    ensures part == [] <==> complement.None? || complement.value == []
  {
    if complement.Some? && complement.value != [] then ", " + complement.value else ""
  }

  /** `formatAddress`: "street, number[, complement] - neighborhood, city/state".
      The zip code is not shown. */
  function FormatAddress(a: Address): (text: string)
    ensures |text| >= |a.street| + |a.number| + |a.neighborhood| + |a.city| + |a.state| + 8
  {
    a.street + ", " + a.number + ComplementPart(a.complement) + " - " + a.neighborhood + ", " + a.city + "/" + a.state
  }

  /** Every address starts with "street, number" and ends with "/state", and
      the zip code plays no part. */
  lemma FormatAddressFrame(a: Address, zip: string)
    ensures var text := FormatAddress(a);
            var head := a.street + ", " + a.number;
            var tail := "/" + a.state;
            |text| >= |head| + |tail| && text[..|head|] == head && text[|text| - |tail|..] == tail
    ensures FormatAddress(a.(zipCode := zip)) == FormatAddress(a)
  {
    var text := FormatAddress(a);
    var head := a.street + ", " + a.number;
    var mid := ComplementPart(a.complement) + " - " + a.neighborhood + ", " + a.city;
    assert text == head + mid + ("/" + a.state);
  }

  /** An empty complement is written as if there were none; a non-empty one
      goes between the number and " - ". */
  lemma ComplementCases(a: Address)
    ensures FormatAddress(a.(complement := Some(""))) == FormatAddress(a.(complement := None))
    ensures a.complement.Some? && a.complement.value != [] ==>
      FormatAddress(a) == a.street + ", " + a.number + ", " + a.complement.value
                          + " - " + a.neighborhood + ", " + a.city + "/" + a.state
    ensures a.complement.None? ==>
      FormatAddress(a) == a.street + ", " + a.number + " - " + a.neighborhood + ", " + a.city + "/" + a.state
  {
  }

  /** With the other parts fixed, the text tells which complement was given,
      up to treating an empty one as absent. */
  lemma ComplementIsRecoverable(a: Address, c1: Option<string>, c2: Option<string>)
    requires FormatAddress(a.(complement := c1)) == FormatAddress(a.(complement := c2))
    ensures ComplementPart(c1) == ComplementPart(c2)
  {
    var head := a.street + ", " + a.number;
    var rest := " - " + a.neighborhood + ", " + a.city + "/" + a.state;
    var t1 := FormatAddress(a.(complement := c1));
    var t2 := FormatAddress(a.(complement := c2));
    assert t1 == head + ComplementPart(c1) + rest;
    assert t2 == head + ComplementPart(c2) + rest;
    assert ComplementPart(c1) == t1[|head|..|t1| - |rest|];
    assert ComplementPart(c2) == t2[|head|..|t2| - |rest|];
  }
}
