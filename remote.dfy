/**
 * What the updater receives from the package index: HTTP responses as `wp_remote_get`
 * returns them, and their bodies as `json_decode` turns them into PHP values, reduced
 * to the distinctions the updater's code makes.
 */
module Remote {
  import opened Wrappers
  import opened Php

  /** One entry of a tag listing: its `name` ("" when the key is missing) and `zipball_url`. */
  datatype Tag = Tag(name: string, zipballUrl: string)

  /** The descriptor keys the updater reads; None stands for a key the JSON object lacks. */
  datatype Descriptor = Descriptor(
    requiresWp: Option<string>,
    tested: Option<string>,
    requiresPhp: Option<string>,
    tags: Option<string>,
    lastUpdated: Option<string>,
    changelog: Option<string>,
    screenshotUrl: Option<string>)

  /** `json_decode` of a body: null (also for malformed JSON), an object, an array, or another scalar. */
  datatype Json =
    | JNull
    | JObject(descriptor: Descriptor)
    | JArray(items: seq<Tag>)
    | JScalar(truthy: bool)

  /** A `wp_remote_get` result: a WP_Error, or a status code, the raw body and its decoding. */
  datatype Response =
    | WpError
    | Http(status: int, body: string, payload: Json)

  /**
   * What the network answers during one update pass. requestRemoteInfo's GET of the
   * descriptor and getRemoteVersion's GETs are separate requests, so each lookup has its
   * own answers: the two GETs of the same descriptor URL may disagree.
   */
  datatype Network = Network(descriptorGet: string -> Response, versionGet: string -> Response)

  /** PHP truthiness of a decoded value: objects always, arrays when non-empty. */
  predicate Truthy(j: Json) {
    match j
    case JNull => false
    case JObject(_) => true
    case JArray(items) => |items| > 0
    case JScalar(t) => t
  }

  /** The updater's three fetch failures: a WP_Error, a status other than 200, an empty body. */
  predicate Failed(r: Response) {
    r.WpError? || r.status != 200 || Empty(r.body)
  }

  /** Reading a property of a decoded value: a non-object yields null for every key. */
  function DescriptorOf(j: Json): Descriptor {
    if j.JObject? then j.descriptor else Descriptor(None, None, None, None, None, None, None)
  }

  /** `$body->tags ?? ''`. */
  function TagsUrl(j: Json): string {
    DescriptorOf(j).tags.GetOr("")
  }

  /** The tag-listing test: `is_array($tagBody) && !empty($tagBody)`. */
  predicate NonEmptyArray(j: Json) {
    j.JArray? && |j.items| > 0
  }

  /** `UNREPRESS_INDEX . 'themes/' . $first_letter . '/' . $slug . '.json'`. */
  function IndexUrl(index: string, slug: string): string {
    index + "themes/" + FirstLetter(slug) + "/" + slug + ".json"
  }

  /** Different slugs are looked up at different descriptor URLs. */
  lemma IndexUrlInjective(index: string, s1: string, s2: string)
    requires IndexUrl(index, s1) == IndexUrl(index, s2)
    ensures s1 == s2
  {
    var u1, u2 := IndexUrl(index, s1), IndexUrl(index, s2);
    assert |u1| == |index| + 8 + |FirstLetter(s1)| + |s1| + 5;
    assert |u2| == |index| + 8 + |FirstLetter(s2)| + |s2| + 5;
    if s1 != "" && s2 != "" {
      var head1 := index + "themes/" + FirstLetter(s1) + "/";
      var head2 := index + "themes/" + FirstLetter(s2) + "/";
      assert u1 == head1 + s1 + ".json" && u2 == head2 + s2 + ".json";
      assert |head1| == |head2| == |index| + 9;
      assert u1[|head1|..|u1| - 5] == s1;
      assert u2[|head2|..|u2| - 5] == s2;
    }
  }
}
