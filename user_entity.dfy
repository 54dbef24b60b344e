/** src/entities/User.ts: the in-place `exclude` helper. */
module UserEntity {
  import opened JsObjects

  /**
   * `exclude(user, ...keys)`: deletes the listed keys from the caller's
   * own object and hands that same object back.
   */
  method Exclude<V>(user: JsObject<V>, keys: seq<string>) returns (result: JsObject<V>)
    modifies user
    ensures result == user
    ensures user.props == Omit(old(user.props), keys)
  {
    for i := 0 to |keys|
      invariant user.props == Omit(old(user.props), keys[..i])
    {
      assert keys[..i + 1][..i] == keys[..i];
      user.props := user.props - {keys[i]};
    }
    assert keys[..|keys|] == keys;
    result := user;
  }
}
