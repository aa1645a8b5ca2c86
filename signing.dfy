/** The call PassBuilder._write_manifest_json_and_signature makes to
    crypto.pkcs7_sign (django_walletpass/models.py:108-114), and how
    Python binds its keyword arguments to the parameters that pkcs7_sign
    declares (django_walletpass/crypto.py:13-17). The signing itself, an
    OpenSSL PKCS#7 detached signature, is the given function `sign`. */
module Signing {
  import opened Base

  /** A declared parameter: its name and whether it has a default value. */
  datatype Param = Param(name: string, hasDefault: bool)

  datatype CallError =
    | UnexpectedKeyword(keyword: string)  // TypeError: got an unexpected keyword argument
    | MissingArgument(parameter: string)  // TypeError: missing a required argument

  function Names(params: seq<Param>): (names: set<string>)
    ensures forall n :: n in names <==> exists i :: 0 <= i < |params| && params[i].name == n
  {
    if params == [] then {} else {params[0].name} + Names(params[1..])
  }

  /** The first keyword, in call order, that names no parameter. */
  function FirstUnexpected(params: seq<Param>, keywords: seq<string>): (r: Option<string>)
    ensures r.None? <==> forall i :: 0 <= i < |keywords| ==> keywords[i] in Names(params)
    ensures r.Some? ==> r.value in keywords && r.value !in Names(params)
  {
    if keywords == [] then None
    else if keywords[0] !in Names(params) then Some(keywords[0])
    else FirstUnexpected(params, keywords[1..])
  }

  /** The first parameter, in declaration order, that has no default and
      that no keyword supplies. */
  function FirstMissing(params: seq<Param>, keywords: seq<string>): (r: Option<string>)
    ensures r.None? <==> forall i :: 0 <= i < |params| && !params[i].hasDefault ==> params[i].name in keywords
    ensures r.Some? ==> r.value !in keywords && exists i :: 0 <= i < |params| && params[i].name == r.value && !params[i].hasDefault
  {
    if params == [] then None
    else if !params[0].hasDefault && params[0].name !in keywords then Some(params[0].name)
    else FirstMissing(params[1..], keywords)
  }

  /** Binding a call made with keyword arguments only: an unknown keyword
      fails first, then a required parameter left unsupplied. */
  function BindKeywords(params: seq<Param>, keywords: seq<string>): (r: Result<(), CallError>)
    ensures r.Success? <==>
      (forall i :: 0 <= i < |keywords| ==> keywords[i] in Names(params)) &&
      (forall i :: 0 <= i < |params| && !params[i].hasDefault ==> params[i].name in keywords)
  {
    match FirstUnexpected(params, keywords)
    case Some(k) => Failure(UnexpectedKeyword(k))
    case None =>
      match FirstMissing(params, keywords)
      case Some(n) => Failure(MissingArgument(n))
      case None => Success(())
  }

  /** pkcs7_sign(p12_certificate, wwdr_certificate, data, certificate_password=None, flag=...). */
  const PKCS7_SIGN_PARAMS: seq<Param> := [
    Param("p12_certificate", false),
    Param("wwdr_certificate", false),
    Param("data", false),
    Param("certificate_password", true),
    Param("flag", true)]

  /** The keywords the builder passes. */
  const BUILDER_SIGN_KEYWORDS: seq<string> := ["certcontent", "keycontent", "wwdr_certificate", "data", "key_password"]

  /** The keywords that name pkcs7_sign's parameters. */
  const CORRECTED_SIGN_KEYWORDS: seq<string> := ["p12_certificate", "wwdr_certificate", "data", "certificate_password"]

  /** The signing call as the builder writes it: binding, then signing. */
  function SignAsWritten(sign: Bytes -> Option<Bytes>, manifestBytes: Bytes): (r: Result<Option<Bytes>, CallError>)
  {
    match BindKeywords(PKCS7_SIGN_PARAMS, BUILDER_SIGN_KEYWORDS)
    case Failure(e) => Failure(e)
    case Success(_) => Success(sign(manifestBytes))
  }

  /** The same call with the keywords pkcs7_sign declares. */
  function SignCorrected(sign: Bytes -> Option<Bytes>, manifestBytes: Bytes): (r: Result<Option<Bytes>, CallError>)
  {
    match BindKeywords(PKCS7_SIGN_PARAMS, CORRECTED_SIGN_KEYWORDS)
    case Failure(e) => Failure(e)
    case Success(_) => Success(sign(manifestBytes))
  }

  /** The builder's call never reaches the signer: "certcontent" is not a
      parameter of pkcs7_sign, so every build raises TypeError. */
  lemma SignAsWrittenAlwaysRaises(sign: Bytes -> Option<Bytes>, manifestBytes: Bytes)
    ensures SignAsWritten(sign, manifestBytes) == Failure(UnexpectedKeyword("certcontent"))
  {
    assert "certcontent" !in Names(PKCS7_SIGN_PARAMS) by {
      assert forall i :: 0 <= i < |PKCS7_SIGN_PARAMS| ==> PKCS7_SIGN_PARAMS[i].name != "certcontent";
    }
  }

  /** Each corrected keyword is the name of the parameter at its position. */
  lemma CorrectedUnexpected()
    ensures FirstUnexpected(PKCS7_SIGN_PARAMS, CORRECTED_SIGN_KEYWORDS) == None
  {
    var params := PKCS7_SIGN_PARAMS;
    var keywords := CORRECTED_SIGN_KEYWORDS;
    forall i | 0 <= i < |keywords|
      ensures keywords[i] in Names(params)
    {
      assert keywords[i] == params[i].name;
    }
  }

  /** The corrected keywords supply the three parameters without a default. */
  lemma CorrectedMissing()
    ensures FirstMissing(PKCS7_SIGN_PARAMS, CORRECTED_SIGN_KEYWORDS) == None
  {
    var params := PKCS7_SIGN_PARAMS;
    var keywords := CORRECTED_SIGN_KEYWORDS;
    assert keywords[0] == params[0].name && keywords[1] == params[1].name && keywords[2] == params[2].name;
    assert FirstMissing(params[3..], keywords) == None;
    assert FirstMissing(params[2..], keywords) == None;
    assert FirstMissing(params[1..], keywords) == None;
  }

  /** With the declared keywords the call binds, and its outcome is exactly
      the signer's: the signature of the manifest bytes, or the signer's
      failure. The builder model signs through `sign` directly. */
  lemma SignCorrectedIsSign(sign: Bytes -> Option<Bytes>, manifestBytes: Bytes)
    ensures SignCorrected(sign, manifestBytes) == Success(sign(manifestBytes))
  {
    CorrectedUnexpected();
    CorrectedMissing();
  }
}
