/**
 * The admin form for a new product: its fields, the image list that `addImage`
 * and `removeImage` edit, and the `POST` body that submitting it sends.
 */
module NewProductForm {
  import opened Wrappers
  import JsonArray
  import Catalog
  import ProductsRoute

  // ---------------------------------------------------------------------
  // `String.prototype.trim`
  // ---------------------------------------------------------------------

  /** The characters `trim` removes: ECMAScript white space and line terminators. */
  predicate IsTrimmable(c: char) {
    || c == '\t' || c == '\U{b}' || c == '\U{c}' || c == ' ' || c == '\U{a0}' || c == '\U{feff}'
    || c == '\U{1680}' || ('\U{2000}' <= c <= '\U{200a}') || c == '\U{202f}' || c == '\U{205f}'
    || c == '\U{3000}' || c == '\n' || c == '\r' || c == '\U{2028}' || c == '\U{2029}'
  }

  /** Every character of `s` is white space (an empty `s` included). */
  predicate Blank(s: string) {
    forall k :: 0 <= k < |s| ==> IsTrimmable(s[k])
  }

  /** `s` without its leading white space. */
  function TrimStart(s: string): (r: string)
    ensures |r| <= |s| && r == s[|s| - |r|..]
    ensures Blank(s[..|s| - |r|])
    ensures r != [] ==> !IsTrimmable(r[0])
  {
    if s != [] && IsTrimmable(s[0]) then
      var r := TrimStart(s[1..]);
      assert s[..|s| - |r|] == [s[0]] + s[1..][..|s| - 1 - |r|];
      r
    else s
  }

  /** `s` without its trailing white space. */
  function TrimEnd(s: string): (r: string)
    ensures |r| <= |s| && r == s[..|r|]
    ensures Blank(s[|r|..])
    ensures r != [] ==> !IsTrimmable(r[|r| - 1])
  {
    if s != [] && IsTrimmable(s[|s| - 1]) then
      var r := TrimEnd(s[..|s| - 1]);
      assert s[|r|..] == s[..|s| - 1][|r|..] + [s[|s| - 1]];
      r
    else s
  }

  /** `s.trim()`: white space is neither at the start nor at the end of the result. */
  function Trim(s: string): (r: string)
    ensures |r| <= |s|
    ensures r != [] ==> !IsTrimmable(r[0]) && !IsTrimmable(r[|r| - 1])
  {
    TrimEnd(TrimStart(s))
  }

  /** `trim` gives the empty string exactly when the input is blank. */
  lemma TrimBlank(s: string)
    ensures Trim(s) == [] <==> Blank(s)
  {
  }

  /**
   * `trim` keeps the stretch `s[i..j]` that starts after the leading white space;
   * what it cuts off on either side, `s[..i]` and `s[j..]`, is blank.
   */
  lemma TrimSplits(s: string)
    ensures var i := |s| - |TrimStart(s)|; var j := i + |Trim(s)|;
      && j <= |s|
      && s[i..j] == Trim(s)
      && Blank(s[..i])
      && Blank(s[j..])
  {
    var t := TrimStart(s);
    var i := |s| - |t|;
    var r := TrimEnd(t);
    assert Trim(s) == r;
    TrimEndSuffix(s, t, i, r);
  }

  /** The trailing part `TrimEnd` drops from a suffix is blank in the whole string too. */
  lemma TrimEndSuffix(s: string, t: string, i: nat, r: string)
    requires i <= |s| && t == s[i..] && r == TrimEnd(t)
    ensures i + |r| <= |s| && s[i..i + |r|] == r && Blank(s[i + |r|..])
  {
    assert r == t[..|r|];
    assert t[|r|..] == s[i + |r|..];
  }

  /** Trimming twice is trimming once. */
  lemma TrimIdempotent(s: string)
    ensures Trim(Trim(s)) == Trim(s)
  {
    var r := Trim(s);
    if r != [] {
      assert TrimStart(r) == r;
      assert TrimEnd(r) == r;
    }
  }

  // ---------------------------------------------------------------------
  // The image list
  // ---------------------------------------------------------------------

  /** `xs.filter((_, i) => i !== index)`. */
  function WithoutIndex(xs: seq<string>, index: int): (r: seq<string>)
    ensures |r| == if 0 <= index < |xs| then |xs| - 1 else |xs|
    decreases |xs|
  {
    if xs == [] then []
    else (if index == 0 then [] else [xs[0]]) + WithoutIndex(xs[1..], index - 1)
  }

  /**
   * Filtering out one index removes exactly that element and keeps the order of
   * the others; an index outside the list removes nothing.
   */
  lemma {:induction false} WithoutIndexSpec(xs: seq<string>, index: int)
    ensures WithoutIndex(xs, index) == if 0 <= index < |xs| then xs[..index] + xs[index + 1..] else xs
  {
    if xs != [] {
      var tail := xs[1..];
      WithoutIndexSpec(tail, index - 1);
      assert WithoutIndex(xs, index) == (if index == 0 then [] else [xs[0]]) + WithoutIndex(tail, index - 1);
      if index == 0 {
        assert WithoutIndex(tail, -1) == tail;
        assert xs[..0] + xs[1..] == tail;
      } else if 0 < index < |xs| {
        assert WithoutIndex(tail, index - 1) == tail[..index - 1] + tail[index..];
        assert xs[..index] == [xs[0]] + tail[..index - 1];
        assert xs[index + 1..] == tail[index..];
      } else {
        assert WithoutIndex(tail, index - 1) == tail;
        assert xs == [xs[0]] + tail;
      }
    }
  }

  // ---------------------------------------------------------------------
  // The form
  // ---------------------------------------------------------------------

  /** The `formData` state object. `basePrice` is the text typed into the price field. */
  datatype FormData = FormData(name: string, description: string, basePrice: string, images: seq<string>)

  /** The form's state: `formData` and the text of the image URL field. */
  class ProductForm {
    var formData: FormData
    var imageInput: string

    /** The form as first rendered: every field empty. */
    constructor ()
      ensures formData == FormData("", "", "", []) && imageInput == ""
    {
      formData := FormData("", "", "", []);
      imageInput := "";
    }

    /** Typing into the name field. */
    method SetName(value: string)
      modifies this
      ensures formData == old(formData).(name := value) && imageInput == old(imageInput)
    {
      formData := formData.(name := value);
    }

    /** Typing into the description field. */
    method SetDescription(value: string)
      modifies this
      ensures formData == old(formData).(description := value) && imageInput == old(imageInput)
    {
      formData := formData.(description := value);
    }

    /** Typing into the price field. */
    method SetBasePrice(value: string)
      modifies this
      ensures formData == old(formData).(basePrice := value) && imageInput == old(imageInput)
    {
      formData := formData.(basePrice := value);
    }

    /** Typing into the image URL field. */
    method SetImageInput(value: string)
      modifies this
      ensures formData == old(formData) && imageInput == value
    {
      imageInput := value;
    }

    /**
     * `addImage`: a blank input changes nothing; otherwise the trimmed input is
     * appended after the existing images and the input is cleared. The other
     * fields are kept.
     */
    method AddImage()
      modifies this
      ensures Trim(old(imageInput)) == [] ==> formData == old(formData) && imageInput == old(imageInput)
      ensures Trim(old(imageInput)) != [] ==>
        && formData == old(formData).(images := old(formData.images) + [Trim(old(imageInput))])
        && imageInput == ""
      ensures |formData.images| == |old(formData.images)| + (if Trim(old(imageInput)) == [] then 0 else 1)
      ensures formData.images[..|old(formData.images)|] == old(formData.images)
    {
      var url := Trim(imageInput);
      if url != [] {
        formData := formData.(images := formData.images + [url]);
        imageInput := "";
      }
    }

    /**
     * `removeImage(index)`: drops the image at `index`, keeping the order of the
     * others and the other fields; an index outside the list changes nothing.
     */
    method RemoveImage(index: int)
      modifies this
      ensures formData == old(formData).(images := WithoutIndex(old(formData.images), index))
      ensures imageInput == old(imageInput)
      ensures 0 <= index < |old(formData.images)| ==>
        formData.images == old(formData.images)[..index] + old(formData.images)[index + 1..]
      ensures !(0 <= index < |old(formData.images)|) ==> formData == old(formData)
    {
      WithoutIndexSpec(formData.images, index);
      formData := formData.(images := WithoutIndex(formData.images, index));
    }
  }

  /**
   * The body `handleSubmit` posts. `parsedPrice` is `parseFloat` of the price
   * field in cents; `JSON.stringify` writes NaN and Infinity alike as `null`.
   * The image list travels as its JSON text, which reads back as the same list.
   */
  function SubmitBody(form: FormData, parsedPrice: ProductsRoute.Reading): (b: ProductsRoute.RequestBody)
    ensures b.images.Some? && JsonArray.Decode(b.images.value) == Some(form.images)
    ensures b.name == Some(form.name) && b.description == Some(form.description)
    ensures !parsedPrice.Finite? ==> b.basePrice.Missing?
    ensures parsedPrice.Finite? ==> b.basePrice == ProductsRoute.Number(parsedPrice.cents)
  {
    JsonArray.RoundTrip(form.images);
    ProductsRoute.RequestBody(
      Some(form.name),
      Some(form.description),
      if parsedPrice.Finite? then ProductsRoute.Number(parsedPrice.cents) else ProductsRoute.Missing,
      Some(JsonArray.Encode(form.images)))
  }

  /**
   * A submitted form with a name and a positive price is accepted, and the row
   * stores the image list as text that reads back as the form's list. An empty
   * list is stored as the text `[]`, not as `null`.
   */
  lemma SubmittedImagesStored(form: FormData, cents: int)
    requires form.name != "" && cents > 0
    ensures ProductsRoute.Validate(SubmitBody(form, ProductsRoute.Finite(cents))).Ok?
    ensures ProductsRoute.Validate(SubmitBody(form, ProductsRoute.Finite(cents))).value.images == Some(JsonArray.Encode(form.images))
    ensures JsonArray.Decode(JsonArray.Encode(form.images)) == Some(form.images)
    ensures form.images == [] ==> ProductsRoute.Validate(SubmitBody(form, ProductsRoute.Finite(cents))).value.images == Some("[]")
  {
    var b := SubmitBody(form, ProductsRoute.Finite(cents));
    assert ProductsRoute.TextTruthy(b.images);
    assert ProductsRoute.PriceTruthy(b.basePrice) && ProductsRoute.ParseFloatReading(b.basePrice) == ProductsRoute.Finite(cents);
    assert ProductsRoute.Validate(b) ==
      Ok(Catalog.ProductData(form.name, ProductsRoute.OrNull(b.description), cents, b.images, true));
    JsonArray.RoundTrip(form.images);
    if form.images == [] {
      assert JsonArray.EncodeElements(form.images) == "";
      assert JsonArray.Encode(form.images) == "[]";
    }
  }

  /**
   * A price field that does not parse, or that parses to Infinity (such as
   * "1e999"), is sent as `null`, and the route answers "required".
   */
  lemma UnparsablePriceIsMissing(form: FormData, parsedPrice: ProductsRoute.Reading)
    requires !parsedPrice.Finite?
    ensures ProductsRoute.Validate(SubmitBody(form, parsedPrice)) == Err(ProductsRoute.RequiredMessage)
  {
    var b := SubmitBody(form, parsedPrice);
    assert !ProductsRoute.PriceTruthy(b.basePrice);
    assert ProductsRoute.Validate(b) == Err(ProductsRoute.RequiredMessage);
  }
}
