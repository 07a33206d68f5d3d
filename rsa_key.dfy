/**
 * RSAKey: how a pipeline step names the RSA key file used to reach the
 * Surround SCM server, either as a path or as the id of a stored file
 * credential. Two fields, a value and its kind, that the setters overwrite.
 */
module Keys {
  import opened Wrappers
  import opened JavaText

  /** `RSAKey.Type`. */
  datatype KeyType = NoKey | Path | ID

  class RSAKey {
    var rsaKeyValue: Option<string>
    var rsaKeyType: KeyType

    /** Either the key says there is no key, or it holds some text. */
    predicate Usable()
      reads this
    {
      rsaKeyType == NoKey || rsaKeyValue.Some?
    }

    /** The no-argument constructor: no key. */
    constructor ()
      ensures rsaKeyValue == None && rsaKeyType == NoKey
      ensures Usable()
    {
      rsaKeyValue := None;
      rsaKeyType := NoKey;
    }

    /** `RSAKey(type, value)`: a blank value falls back to NoKey whatever kind was asked for. */
    constructor WithValue(keyType: KeyType, value: Option<string>)
      ensures rsaKeyValue == FixEmptyAndTrim(value)
      ensures rsaKeyValue.None? ==> rsaKeyType == NoKey
      ensures rsaKeyValue.Some? ==> rsaKeyType == keyType
      ensures Usable()
    {
      var fixed := FixEmptyAndTrim(value);
      rsaKeyValue := fixed;
      if fixed.None? {
        rsaKeyType := NoKey;
      } else {
        rsaKeyType := keyType;
      }
    }

    /** `setRsaKeyFileId`: the kind becomes ID even when the id is blank. */
    method SetRsaKeyFileId(id: Option<string>)
      modifies this
      ensures rsaKeyValue == FixEmptyAndTrim(id)
      ensures rsaKeyType == ID
    {
      rsaKeyValue := FixEmptyAndTrim(id);
      rsaKeyType := ID;
    }

    /** `getRsaKeyFileId`: always null, whatever the key holds. */
    function GetRsaKeyFileId(): (r: Option<string>)
      ensures r.None?
    {
      None
    }

    /** `setRsaKeyFilePath`: the kind becomes Path even when the path is blank. */
    method SetRsaKeyFilePath(path: Option<string>)
      modifies this
      ensures rsaKeyValue == FixEmptyAndTrim(path)
      ensures rsaKeyType == Path
    {
      rsaKeyValue := FixEmptyAndTrim(path);
      rsaKeyType := Path;
    }

    /** `getRsaKeyFilePath`: always null, whatever the key holds. */
    function GetRsaKeyFilePath(): (r: Option<string>)
      ensures r.None?
    {
      None
    }

    /** `setRsaKeyValue`: stores the text as given, untrimmed, and leaves the kind alone. */
    method SetRsaKeyValue(value: Option<string>)
      modifies this
      ensures rsaKeyValue == value
      ensures rsaKeyType == old(rsaKeyType)
    {
      rsaKeyValue := value;
    }

    /** `setRsaKeyType`: stores the kind and leaves the value alone. */
    method SetRsaKeyType(keyType: KeyType)
      modifies this
      ensures rsaKeyType == keyType
      ensures rsaKeyValue == old(rsaKeyValue)
    {
      rsaKeyType := keyType;
    }

    /** `getRsaKeyType`. */
    function GetRsaKeyType(): (t: KeyType)
      reads this
      ensures t == rsaKeyType
    {
      rsaKeyType
    }

    /** `getRsaKeyValue`. */
    function GetRsaKeyValue(): (v: Option<string>)
      reads this
      ensures v == rsaKeyValue
    {
      rsaKeyValue
    }
  }

  /**
   * Unlike the two-argument constructor, the setters do not fall back to
   * NoKey: a blank file id leaves a key of kind ID with no value, which is
   * not Usable.
   */
  method BlankIdIsNotUsable() returns (keyType: KeyType, value: Option<string>, usable: bool)
    ensures keyType == ID && value.None? && !usable
  {
    var key := new RSAKey();
    key.SetRsaKeyFileId(Some("  "));
    assert Trim("  ") == [] by {
      assert LeadingBlanks("  ") == 2;
    }
    keyType := key.GetRsaKeyType();
    value := key.GetRsaKeyValue();
    usable := key.Usable();
  }
}
