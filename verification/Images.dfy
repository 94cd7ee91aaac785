/** Image references: the `{sha}` template of a service definition and the
    reverse reading that a rollback makes of a container's image tag. */
module Images {
  import opened Common

  const PLACEHOLDER := "{sha}"

  /** The prefix `ghcr.io/coderyoss/codery:<service>-` of registry images. */
  function TagPrefix(s: Service): string {
    "ghcr.io/coderyoss/codery:" + s + "-"
  }

  function RegistryTemplate(s: Service): string {
    TagPrefix(s) + PLACEHOLDER
  }

  /** Left-to-right replacement of every `{sha}` in a template. */
  function ImageRef(template: string, sha: string): string {
    if |template| < 5 then template
    else if template[..5] == PLACEHOLDER then sha + ImageRef(template[5..], sha)
    else [template[0]] + ImageRef(template[1..], sha)
  }

  function ShaFromImage(s: Service, image: string): Option<string> {
    if TagPrefix(s) <= image then Some(image[|TagPrefix(s)|..]) else None
  }

  /** What a rollback records when the tag does not have the registry form. */
  function ShaOrUnknown(s: Service, image: string): string {
    match ShaFromImage(s, image)
    case Some(sha) => sha
    case None => "unknown"
  }

  lemma {:induction false} ImageRefSkipsPlainText(text: string, rest: string, sha: string)
    requires '{' !in text
    ensures ImageRef(text + rest, sha) == text + ImageRef(rest, sha)
  {
    var whole := text + rest;
    if text == [] {
      assert whole == rest;
    } else if |whole| >= 5 {
      assert whole[..5] != PLACEHOLDER by {
        assert whole[..5][0] == text[0];
        assert PLACEHOLDER[0] == '{';
      }
      assert whole[1..] == text[1..] + rest;
      ImageRefSkipsPlainText(text[1..], rest, sha);
      assert [text[0]] + (text[1..] + ImageRef(rest, sha)) == text + ImageRef(rest, sha);
    }
  }

  predicate PlaceholderAt(text: string, i: nat) {
    i <= |text| && "{sha}" <= text[i..]
  }

  /** No placeholder begins within the first `n` characters. */
  predicate FreeUpTo(text: string, n: nat) {
    forall i: nat :: i < n ==> !PlaceholderAt(text, i)
  }

  lemma ImageRefStep(text: string, sha: string)
    requires text != [] && !PlaceholderAt(text, 0)
    ensures ImageRef(text, sha) == [text[0]] + ImageRef(text[1..], sha)
  {
    assert text[0..] == text;
    assert |text| >= 5 ==> (text[..5] == PLACEHOLDER <==> "{sha}" <= text);
  }

  lemma FreeRest(text: string, n: nat)
    requires text != [] && n > 0 && FreeUpTo(text, n)
    ensures FreeUpTo(text[1..], n - 1)
  {
    forall i: nat | i < n - 1 ensures !PlaceholderAt(text[1..], i) {
      assert !PlaceholderAt(text, i + 1);
      if i + 1 <= |text| { assert text[1..][i..] == text[i + 1..]; }
    }
  }

  /** Text is kept up to the first placeholder ... */
  lemma {:induction false} ImageRefKeeps(a: string, rest: string, sha: string)
    requires FreeUpTo(a + rest, |a|)
    ensures ImageRef(a + rest, sha) == a + ImageRef(rest, sha)
  {
    var whole := a + rest;
    if a == [] {
      assert whole == rest;
    } else {
      ImageRefStep(whole, sha);
      FreeRest(whole, |a|);
      assert whole[1..] == a[1..] + rest;
      ImageRefKeeps(a[1..], rest, sha);
      assert [a[0]] + (a[1..] + ImageRef(rest, sha)) == a + ImageRef(rest, sha);
    }
  }

  /** ... and the SHA takes its place, and so on behind it. */
  lemma ImageRefReplaces(a: string, rest: string, sha: string)
    requires FreeUpTo(a + ("{sha}" + rest), |a|)
    ensures ImageRef(a + ("{sha}" + rest), sha) == a + (sha + ImageRef(rest, sha))
    ensures ImageRef("", sha) == ""
  {
    ImageRefKeeps(a, "{sha}" + rest, sha);
    assert ("{sha}" + rest)[..5] == PLACEHOLDER && ("{sha}" + rest)[5..] == rest;
  }

  lemma {:induction false} ImageRefByItself(template: string)
    ensures ImageRef(template, PLACEHOLDER) == template
  {
    if |template| < 5 {
    } else if template[..5] == PLACEHOLDER {
      ImageRefByItself(template[5..]);
    } else {
      ImageRefByItself(template[1..]);
    }
  }

  /** A registry template yields exactly the registry tag. */
  lemma RegistryImage(s: Service, sha: string)
    requires '{' !in s
    ensures ImageRef("ghcr.io/coderyoss/codery:" + s + "-{sha}", sha) == "ghcr.io/coderyoss/codery:" + s + "-" + sha
    ensures ImageRef(RegistryTemplate(s), sha) == TagPrefix(s) + sha
  {
    assert "ghcr.io/coderyoss/codery:" + s + "-{sha}" == RegistryTemplate(s) by { assert "-{sha}" == "-" + PLACEHOLDER; }
    ImageRefSkipsPlainText(TagPrefix(s), PLACEHOLDER, sha);
    assert PLACEHOLDER[5..] == "";
    assert ImageRef(PLACEHOLDER, sha) == sha + ImageRef("", sha) == sha;
  }

  /** A rollback reads off a registry tag what follows the service's name and a
      hyphen, and records "unknown" for every other image. */
  lemma TagIsRead(s: Service, image: string)
    ensures forall sha :: image == "ghcr.io/coderyoss/codery:" + s + "-" + sha ==>
              ShaFromImage(s, image) == Some(sha) && ShaOrUnknown(s, image) == sha
    ensures !("ghcr.io/coderyoss/codery:" + s + "-" <= image) ==> ShaOrUnknown(s, image) == "unknown"
  {
    forall sha | image == "ghcr.io/coderyoss/codery:" + s + "-" + sha ensures ShaFromImage(s, image) == Some(sha) {
      assert image[|TagPrefix(s)|..] == sha;
    }
  }

  /** Reading the SHA back out of the tag works for every SHA exactly when the
      template is the registry one. A fixed upstream tag fails it. */
  lemma ShaRoundTrip(s: Service, template: string)
    requires '{' !in s
    ensures (forall sha :: ShaFromImage(s, ImageRef(template, sha)) == Some(sha))
       <==> template == "ghcr.io/coderyoss/codery:" + s + "-{sha}"
  {
    assert "ghcr.io/coderyoss/codery:" + s + "-{sha}" == RegistryTemplate(s) by { assert "-{sha}" == "-" + PLACEHOLDER; }
    if template == RegistryTemplate(s) {
      forall sha ensures ShaFromImage(s, ImageRef(template, sha)) == Some(sha) {
        RegistryImage(s, sha);
      }
    }
    if forall sha :: ShaFromImage(s, ImageRef(template, sha)) == Some(sha) {
      ImageRefByItself(template);
      assert ShaFromImage(s, ImageRef(template, PLACEHOLDER)) == Some(PLACEHOLDER);
    }
  }

  /** On a registry template the SHA read from a tag names that same image. */
  lemma ShaNamesImage(s: Service, image: string)
    requires '{' !in s && TagPrefix(s) <= image
    ensures ImageRef(RegistryTemplate(s), ShaOrUnknown(s, image)) == image
  {
    RegistryImage(s, ShaOrUnknown(s, image));
  }
}
