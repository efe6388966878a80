/** The part of the two image-upload handlers that is computation rather than I/O:
    the object key `<folder>/<uuid>.<extension>`, where the extension is
    `originalname.split('.').pop()`, and the public URL of that key; plus the bucket
    they write to, as a map from key to stored object. */
module Uploads {
  import opened Wrappers

  /** `s.split(sep)` for a one-character separator: the pieces between separators, in order,
      with empty pieces where separators are adjacent or at either end. */
  function Split(s: string, sep: char): (parts: seq<string>)
    ensures |parts| >= 1
    decreases |s|
  {
    if s == [] then [""]
    else
      var rest := Split(s[1..], sep);
      if s[0] == sep then [""] + rest else [[s[0]] + rest[0]] + rest[1..]
  }

  /** `parts.join(sep)`. */
  function Join(parts: seq<string>, sep: char): string
    requires |parts| >= 1
    decreases |parts|
  {
    if |parts| == 1 then parts[0] else parts[0] + [sep] + Join(parts[1..], sep)
  }

  /** `originalname.split('.').pop()`: the text after the last `.`, or the whole name when it has none. */
  function Extension(originalname: string): string {
    var parts := Split(originalname, '.');
    parts[|parts| - 1]
  }

  /** The S3 key `` `${folder}/${uuid}.${ext}` `` built by both upload handlers. */
  function ObjectKey(folder: string, uuid: string, originalname: string): string {
    folder + "/" + uuid + "." + Extension(originalname)
  }

  /** The public URL `` `https://${BUCKET_NAME}.s3.${AWS_REGION}.amazonaws.com/${key}` ``. */
  function PublicUrl(bucket: string, region: string, key: string): string {
    "https://" + bucket + ".s3." + region + ".amazonaws.com/" + key
  }

  /** Splitting and joining again gives back the string, and no piece holds the separator. */
  lemma {:induction false} SplitJoin(s: string, sep: char)
    ensures Join(Split(s, sep), sep) == s
    ensures forall k :: 0 <= k < |Split(s, sep)| ==> sep !in Split(s, sep)[k]
    decreases |s|
  {
    if s != [] {
      var rest := Split(s[1..], sep);
      SplitJoin(s[1..], sep);
      if s[0] == sep {
        assert Split(s, sep)[1..] == rest;
      } else {
        var parts := Split(s, sep);
        assert parts[0] == [s[0]] + rest[0];
        if |rest| == 1 {
          assert parts == [[s[0]] + rest[0]];
        } else {
          assert parts[1..] == rest[1..];
          assert Join(parts, sep) == [s[0]] + rest[0] + [sep] + Join(rest[1..], sep);
        }
        forall k | 0 <= k < |parts| ensures sep !in parts[k] {
          if k > 0 { assert parts[k] == rest[k]; }
        }
      }
    }
  }

  /** Splitting at a separator that is present splits the two sides independently. */
  lemma {:induction false} SplitAppend(x: string, sep: char, t: string)
    ensures Split(x + [sep] + t, sep) == Split(x, sep) + Split(t, sep)
    decreases |x|
  {
    if x == [] {
      assert [sep] + t == x + [sep] + t;
      assert ([sep] + t)[1..] == t;
    } else {
      SplitAppend(x[1..], sep, t);
      assert (x + [sep] + t)[1..] == x[1..] + [sep] + t;
    }
  }

  /** A string without the separator is a single piece. */
  lemma {:induction false} SplitNoSeparator(t: string, sep: char)
    requires sep !in t
    ensures Split(t, sep) == [t]
    decreases |t|
  {
    if t != [] {
      SplitNoSeparator(t[1..], sep);
      assert t == [t[0]] + t[1..];
    }
  }

  /** The extension is the longest suffix of the name without a `.`: it holds no `.`, and it is
      either the whole name or comes right after a `.`. */
  lemma {:induction false} ExtensionSpec(name: string)
    ensures var e := Extension(name); '.' !in e && |e| <= |name| && e == name[|name| - |e|..]
    ensures var e := Extension(name); |e| < |name| ==> name[|name| - |e| - 1] == '.'
    decreases |name|
  {
    if name != [] {
      ExtensionSpec(name[1..]);
      var rest := Split(name[1..], '.');
      var e := Extension(name);
      SplitJoin(name, '.');
      if name[0] != '.' && |rest| == 1 {
        SplitJoin(name[1..], '.');
        assert e == [name[0]] + rest[0];
        assert e == name;
      } else {
        assert e == rest[|rest| - 1];
        var tail := name[1..];
        if name[0] != '.' {
          SplitJoin(tail, '.');
          assert Join(rest, '.') == rest[0] + ['.'] + Join(rest[1..], '.');
          assert '.' in tail by {
            assert tail[|rest[0]|] == '.';
          }
          assert |e| < |tail|;
        }
        assert name[|name| - |e| - 1] == (if |e| == |tail| then name[0] else tail[|tail| - |e| - 1]);
      }
    }
  }

  /** The key keeps the file's extension: reading the extension of the key gives the file's. */
  lemma ObjectKeyKeepsExtension(folder: string, uuid: string, originalname: string)
    ensures Extension(ObjectKey(folder, uuid, originalname)) == Extension(originalname)
  {
    var e := Extension(originalname);
    ExtensionSpec(originalname);
    SplitAppend(folder + "/" + uuid, '.', e);
    SplitNoSeparator(e, '.');
    assert ObjectKey(folder, uuid, originalname) == (folder + "/" + uuid) + ['.'] + e;
  }

  /** The URL is the bucket's virtual-hosted address followed by the key, so the key can be read back from it. */
  lemma PublicUrlEndsWithKey(bucket: string, region: string, key: string)
    ensures var url := PublicUrl(bucket, region, key);
      |url| >= |key| && url[|url| - |key|..] == key &&
      url[..|url| - |key|] == "https://" + bucket + ".s3." + region + ".amazonaws.com/"
  {
  }

  /** A file as multer hands it over (`req.file`). */
  datatype UploadedFile = UploadedFile(originalname: string, mimetype: string, buffer: seq<bv8>)

  /** What S3 keeps under a key. */
  datatype StoredObject = StoredObject(contentType: string, body: seq<bv8>)

  /** The reply of an upload handler. */
  datatype UploadReply = Uploaded(imageUrl: string) | UploadRejected(status: nat, error: string)

  const NoImageFile := "No image file provided"

  /** The S3 bucket the handlers write to. */
  class Bucket {
    var objects: map<string, StoredObject>

    constructor ()
      ensures objects == map[]
    {
      objects := map[];
    }

    /** Both upload handlers: refuse a request without a file, otherwise store the file under a
        fresh key in `folder` and answer with its public URL. */
    method PutImage(folder: string, file: Option<UploadedFile>, uuid: string, bucketName: string, region: string)
      returns (reply: UploadReply)
      modifies this
      ensures file.None? ==> reply == UploadRejected(400, NoImageFile) && objects == old(objects)
      ensures file.Some? ==>
        var key := ObjectKey(folder, uuid, file.value.originalname);
        && reply == Uploaded(PublicUrl(bucketName, region, key))
        && objects == old(objects)[key := StoredObject(file.value.mimetype, file.value.buffer)]
    {
      if file.None? {
        return UploadRejected(400, NoImageFile);
      }
      var f := file.value;
      var extension := Extension(f.originalname);
      var key := folder + "/" + uuid + "." + extension;
      objects := objects[key := StoredObject(f.mimetype, f.buffer)];
      reply := Uploaded(PublicUrl(bucketName, region, key));
    }
  }
}
