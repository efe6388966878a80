/** The blog controller: `addBlog`, `getBlogById`, `updateBlog`, `toggleBlogStatus` and
    `uploadBlogImage`, over the Blogs table keyed by `blogId`. The only blog-specific logic is
    the tolerant reading of `extraFields`, which may arrive as a JSON string from a form post. */
module Blogs {
  import opened Wrappers
  import opened Json
  import opened Content
  import Uploads

  const BlogEntity := Entity("blogId", "Blog not found", "Failed to add blog")

  /** The `extraFields` local after the parse step: a string is replaced by what it parses to,
      and kept as it is when it does not parse; any other value, or its absence, stays. */
  function ParsedExtraFields(body: Object, parse: Parser): Option<Value> {
    match Get(body, "extraFields")
    case Some(Str(s)) => if parse(s).Some? then parse(s) else Some(Str(s))
    case other => other
  }

  /** `extraFields || []`: what the blog stores as `extraFields`. */
  function ExtraFields(body: Object, parse: Parser): (v: Value)
    ensures Truthy(v)
  {
    var parsed := ParsedExtraFields(body, parse);
    if parsed.Some? && Truthy(parsed.value) then parsed.value else Arr([])
  }

  /** The attributes a blog places after the body. */
  function BlogExtra(body: Object, parse: Parser): Object {
    map["extraFields" := ExtraFields(body, parse)]
  }

  /** The cases of `extraFields`: a string that parses is replaced by its (truthy) value; a
      non-empty string that does not parse is kept as the string; a truthy non-string is kept;
      anything absent or falsy, a parse to a falsy value included, becomes `[]`. */
  lemma ExtraFieldsCases(body: Object, parse: Parser)
    ensures "extraFields" !in body ==> ExtraFields(body, parse) == Arr([])
    ensures "extraFields" in body ==> match body["extraFields"]
      case Str(s) =>
        ExtraFields(body, parse) == (match parse(s)
          case Some(p) => if Truthy(p) then p else Arr([])
          case None => if s != "" then Str(s) else Arr([]))
      case other => ExtraFields(body, parse) == if Truthy(other) then other else Arr([])
  {
  }

  /** A form post sending the fields as JSON text stores the parsed array. */
  lemma ExtraFieldsFromFormText(body: Object, parse: Parser, text: string, fields: seq<Value>)
    requires Get(body, "extraFields") == Some(Str(text)) && parse(text) == Some(Arr(fields))
    ensures ExtraFields(body, parse) == Arr(fields)
  {
  }

  /** The Blogs table. */
  class BlogTable {
    var items: Table

    ghost predicate Valid()
      reads this
    {
      KeyedBy(items, BlogEntity.keyAttr)
    }

    constructor ()
      ensures Valid() && items == map[]
    {
      items := map[];
    }

    /** `addBlog`, with the fresh uuid `blogId` and the clock reading `timestamp`. */
    method AddBlog(body: Object, parse: Parser, blogId: string, timestamp: string) returns (reply: Reply)
      requires Valid()
      modifies this
      ensures Valid()
      ensures After(reply, items) == AddSpec(old(items), BlogEntity, body, BlogExtra(body, parse), blogId, timestamp)
    {
      AddKeepsKeyed(items, BlogEntity, body, BlogExtra(body, parse), blogId, timestamp);
      var extraFields := Get(body, "extraFields");
      if extraFields.Some? && extraFields.value.Str? {
        var parsed := parse(extraFields.value.s);
        if parsed.Some? {
          extraFields := parsed;
        }
      }
      var stored := if extraFields.Some? && Truthy(extraFields.value) then extraFields.value else Arr([]);
      var newBlog := map["blogId" := Str(blogId)] + body + map["extraFields" := stored] + Forced(timestamp);
      var key := Get(newBlog, "blogId");
      if !IsKey(key) {
        return Refused(500, BlogEntity.addFailed);
      }
      items := items[key.value.s := newBlog];
      reply := Done(201, Some(newBlog));
    }

    /** `getBlogById`. */
    method GetBlogById(id: string) returns (reply: Reply)
      ensures reply == GetSpec(items, BlogEntity, id)
    {
      if id !in items {
        return Refused(404, BlogEntity.notFound);
      }
      reply := Done(200, Some(items[id]));
    }

    /** `updateBlog`; `id` is the route parameter, never empty. */
    method UpdateBlog(id: string, body: Object, parse: Parser) returns (reply: Reply)
      requires Valid() && id != ""
      modifies this
      ensures Valid()
      ensures After(reply, items) == UpdateSpec(old(items), BlogEntity, id, body, BlogExtra(body, parse))
    {
      UpdateKeepsKeyed(items, BlogEntity, id, body, BlogExtra(body, parse));
      var extraFields := Get(body, "extraFields");
      if extraFields.Some? && extraFields.value.Str? {
        var parsed := parse(extraFields.value.s);
        if parsed.Some? {
          extraFields := parsed;
        }
      }
      var stored := if extraFields.Some? && Truthy(extraFields.value) then extraFields.value else Arr([]);
      var updatedBlog := body + map["extraFields" := stored] + map["blogId" := Str(id)];
      items := items[id := updatedBlog];
      reply := Done(200, None);
    }

    /** `toggleBlogStatus`. */
    method ToggleBlogStatus(id: string, body: Object) returns (reply: Reply)
      requires Valid() && id != ""
      modifies this
      ensures Valid()
      ensures After(reply, items) == ToggleSpec(old(items), BlogEntity, id, body)
    {
      ToggleKeepsKeyed(items, BlogEntity, id, body);
      var enabled := Get(body, "enabled");
      if enabled.None? {
        return Refused(500, ToggleFailed);
      }
      var current := if id in items then items[id] else map["blogId" := Str(id)];
      items := items[id := current["enabled" := enabled.value]];
      reply := Done(200, None);
    }

    /** `uploadBlogImage`: the file goes to the `blogs` folder of the bucket; the table is untouched. */
    method UploadBlogImage(bucket: Uploads.Bucket, file: Option<Uploads.UploadedFile>, uuid: string,
                           bucketName: string, region: string) returns (reply: Uploads.UploadReply)
      modifies bucket
      ensures file.None? ==> reply == Uploads.UploadRejected(400, Uploads.NoImageFile) && bucket.objects == old(bucket.objects)
      ensures file.Some? ==>
        var key := Uploads.ObjectKey("blogs", uuid, file.value.originalname);
        && reply == Uploads.Uploaded(Uploads.PublicUrl(bucketName, region, key))
        && bucket.objects == old(bucket.objects)[key := Uploads.StoredObject(file.value.mimetype, file.value.buffer)]
    {
      reply := bucket.PutImage("blogs", file, uuid, bucketName, region);
    }
  }
}
