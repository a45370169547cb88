/** The site address every SEO component uses: `NEXT_PUBLIC_BASE_URL`, or the
    production address when the variable is unset or empty, and the rule that
    turns a picture path into an absolute address. */
module Site {
  import opened Wrappers
  import opened Strings

  const ProductionUrl := "https://divinelits.com"

  /** `process.env.NEXT_PUBLIC_BASE_URL || 'https://divinelits.com'`. */
  function BaseUrl(env: Option<string>): (r: string)
    ensures env.Some? && env.value != "" ==> r == env.value
    ensures env.None? || env.value == "" ==> r == ProductionUrl
    ensures r != ""
  {
    if env.Some? && env.value != "" then env.value else ProductionUrl
  }

  /** `img.startsWith('http') ? img : base + img`. */
  function Absolute(base: string, img: string): (r: string)
    ensures StartsWith(img, "http") ==> r == img
    ensures !StartsWith(img, "http") ==> r == base + img
  {
    if StartsWith(img, "http") then img else base + img
  }

  /** With an http(s) base, every picture address comes out absolute, and an
      absolute one is left alone. */
  lemma AbsoluteStartsWithHttp(base: string, img: string)
    requires StartsWith(base, "http")
    ensures StartsWith(Absolute(base, img), "http")
    ensures Absolute(base, Absolute(base, img)) == Absolute(base, img)
  {
    if !StartsWith(img, "http") {
      assert (base + img)[..4] == base[..4];
    }
  }

  lemma ProductionUrlIsHttp()
    ensures StartsWith(ProductionUrl, "http")
  {
  }

  /** `list.map(img => Absolute(base, img))`. */
  function AbsoluteAll(base: string, images: seq<string>): (r: seq<string>)
    ensures |r| == |images|
    ensures forall i :: 0 <= i < |r| ==> r[i] == Absolute(base, images[i])
  {
    seq(|images|, i requires 0 <= i < |images| => Absolute(base, images[i]))
  }
}
