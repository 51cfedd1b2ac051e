/** The base URL of the API and the endpoints of the clinical-image gallery. The environment
    variable is a parameter: `None` when it is not set. */
module ClinicalImagesService {
  import opened Wrappers
  import opened Strings
  import opened Decimal

  /** `NEXT_PUBLIC_API_BASE_URL?.replace(/\/+$/, "")`: absent stays absent, otherwise every
      trailing '/' is removed. */
  function ApiBaseUrl(env: Option<string>): (r: Option<string>)
    ensures r.None? <==> env.None?
    ensures r.Some? ==> |r.value| <= |env.value| && r.value == env.value[..|r.value|]
    ensures r.Some? ==> r.value == [] || r.value[|r.value| - 1] != '/'
    ensures r.Some? ==> forall i :: |r.value| <= i < |env.value| ==> env.value[i] == '/'
  {
    match env
    case None => None
    case Some(s) => Some(StripTrailing(s, '/'))
  }

  /** Applying the strip to its own result changes nothing. */
  lemma ApiBaseUrlIdempotent(env: Option<string>)
    ensures ApiBaseUrl(ApiBaseUrl(env)) == ApiBaseUrl(env)
  {
    if env.Some? {
      StripTrailingIdempotent(env.value, '/');
    }
  }

  /** A base URL with any number of trailing slashes gives the same endpoints as without. */
  lemma {:induction false} TrailingSlashesIgnored(s: string, k: nat)
    requires s == [] || s[|s| - 1] != '/'
    ensures ApiBaseUrl(Some(s + seq(k, _ => '/'))) == Some(s)
  {
    var t := s + seq(k, _ => '/');
    if k == 0 {
      assert t == s;
    } else {
      assert t[|t| - 1] == '/';
      assert t[..|t| - 1] == s + seq(k - 1, _ => '/');
      TrailingSlashesIgnored(s, k - 1);
    }
  }

  /** A template literal `${x}` of a value that may be undefined. */
  function Interpolate(x: Option<string>): (r: string)
    ensures x.Some? ==> r == x.value
    ensures x.None? ==> r == "undefined"
  {
    x.GetOr("undefined")
  }

  const ImagesPath := "/api/v1/clinical-images"

  function List(env: Option<string>): string {
    Interpolate(ApiBaseUrl(env)) + ImagesPath
  }

  function Create(env: Option<string>): string {
    Interpolate(ApiBaseUrl(env)) + ImagesPath
  }

  function Update(env: Option<string>, id: int): string {
    Interpolate(ApiBaseUrl(env)) + ImagesPath + "/" + IntToDecimal(id)
  }

  function Delete(env: Option<string>, id: int): string {
    Interpolate(ApiBaseUrl(env)) + ImagesPath + "/" + IntToDecimal(id)
  }

  /** Creating posts to the list URL, and an image is updated and deleted at the same URL: the
      list URL followed by "/" and the id in decimal. */
  lemma EndpointsAgree(env: Option<string>, id: int)
    ensures Create(env) == List(env)
    ensures Update(env, id) == Delete(env, id)
    ensures Update(env, id) == List(env) + "/" + IntToDecimal(id)
  {
  }

  /** Different ids address different images. */
  lemma UpdateInjective(env: Option<string>, id1: int, id2: int)
    requires Update(env, id1) == Update(env, id2)
    ensures id1 == id2
  {
    var p := List(env) + "/";
    assert Update(env, id1) == p + IntToDecimal(id1);
    assert Update(env, id2) == p + IntToDecimal(id2);
    assert IntToDecimal(id1) == Update(env, id1)[|p|..];
    assert IntToDecimal(id2) == Update(env, id2)[|p|..];
    IntToDecimalInjective(id1, id2);
  }
}
