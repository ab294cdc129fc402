/** The pre-filled edit forms: a user row back to its profile form and a product
    row back to its product form. */
module DtoMapper {
  import opened Domain
  import opened Accounts
  import opened Catalog

  /** The stored phone number holds the four characters of the country prefix,
      then the national number; the form shows the characters at 4 up to 13. */
  const PhoneEnd: nat := 13

  /** `fromUser`: names copied, the prefix cut off the phone, a missing phone
      shown as empty; a stored phone shorter than 13 characters cannot be cut.
      The form it gives never has a null phone, so it can always be submitted. */
  function FromUser(u: User): (r: Result<UserEditRequest>)
    ensures u.phoneNumber.None? ==> r == Ok(UserEditRequest(u.firstName, u.lastName, Some([])))
    ensures u.phoneNumber.Some? && |u.phoneNumber.value| < PhoneEnd ==> r == Err(PhoneTooShort)
    ensures u.phoneNumber.Some? && |u.phoneNumber.value| >= PhoneEnd ==>
              r == Ok(UserEditRequest(u.firstName, u.lastName,
                                      Some(u.phoneNumber.value[|PhonePrefix|..PhoneEnd])))
    ensures r.Ok? ==> r.value.firstName == u.firstName && r.value.lastName == u.lastName
    ensures r.Ok? ==> r.value.phoneNumber.Some?
    ensures r.Ok? && u.phoneNumber.Some? ==>
              |r.value.phoneNumber.value| == PhoneEnd - |PhonePrefix|
              && u.phoneNumber.value[|PhonePrefix|..PhoneEnd] == r.value.phoneNumber.value
  {
    match u.phoneNumber
    case None => Ok(UserEditRequest(u.firstName, u.lastName, Some([])))
    case Some(phone) =>
      if |phone| < PhoneEnd then Err(PhoneTooShort)
      else Ok(UserEditRequest(u.firstName, u.lastName, Some(phone[|PhonePrefix|..PhoneEnd])))
  }

  /** `fromProduct`: the seven editable fields of the product. */
  function FromProduct(p: Product): (req: ProductRequest)
    ensures ApplyRequest(p, req) == p
  {
    ProductRequest(p.name, p.description, p.price, p.category, p.imageUrl, p.brand, p.inStock)
  }

  /** Saving a profile form with an empty or a nine-digit phone number and
      reading the form back gives the same form. */
  lemma EditFormRoundTrip(u: User, req: UserEditRequest)
    requires req.phoneNumber.Some?
    requires req.phoneNumber.value == [] || |req.phoneNumber.value| == PhoneEnd - |PhonePrefix|
    ensures FromUser(EditFields(u, req)) == Ok(req)
  {
    var v := EditFields(u, req);
    if req.phoneNumber.value != [] {
      var stored := PhonePrefix + req.phoneNumber.value;
      assert v.phoneNumber == Some(stored);
      assert stored[4..PhoneEnd] == req.phoneNumber.value;
    }
  }

  /** A non-empty phone number shorter than nine digits is saved, but the
      profile form can no longer be read back. */
  lemma EditFormShortPhone(u: User, req: UserEditRequest)
    requires req.phoneNumber.Some? && 0 < |req.phoneNumber.value| < PhoneEnd - |PhonePrefix|
    ensures FromUser(EditFields(u, req)) == Err(PhoneTooShort)
  {
  }

  /** The form of a new product is the request it was created from, and the form
      of an updated product is the request it was updated with. */
  lemma ProductFormRoundTrip(id: Id, p: Product, req: ProductRequest)
    ensures FromProduct(NewProduct(id, req)) == req
    ensures FromProduct(ApplyRequest(p, req)) == req
  {
  }
}
