/** The service controller: `addService`, `getServiceById`, `updateService`,
    `toggleServiceStatus` and `uploadServiceImage`, over the Services table keyed by
    `serviceId`. Unlike the blog controller it adds nothing after the body. */
module Services {
  import opened Wrappers
  import opened Json
  import opened Content
  import Uploads

  const ServiceEntity := Entity("serviceId", "Service not found", "Failed to add service")

  /** The body is stored as sent: an `extraFields` string, say, stays a string, where a blog would parse it. */
  lemma ServiceBodyStoredVerbatim(t: Table, body: Object, serviceId: string, now: string, text: string)
    requires "serviceId" !in body && serviceId != "" && Get(body, "extraFields") == Some(Str(text))
    ensures var after := AddSpec(t, ServiceEntity, body, map[], serviceId, now);
      after.reply.Done? && after.items[serviceId]["extraFields"] == Str(text)
  {
    AddKeyComesFromBody(t, ServiceEntity, body, map[], serviceId, now);
  }

  /** The Services table. */
  class ServiceTable {
    var items: Table

    ghost predicate Valid()
      reads this
    {
      KeyedBy(items, ServiceEntity.keyAttr)
    }

    constructor ()
      ensures Valid() && items == map[]
    {
      items := map[];
    }

    /** `addService`, with the fresh uuid `serviceId` and the clock reading `timestamp`. */
    method AddService(body: Object, serviceId: string, timestamp: string) returns (reply: Reply)
      requires Valid()
      modifies this
      ensures Valid()
      ensures After(reply, items) == AddSpec(old(items), ServiceEntity, body, map[], serviceId, timestamp)
    {
      AddKeepsKeyed(items, ServiceEntity, body, map[], serviceId, timestamp);
      var newService := map["serviceId" := Str(serviceId)] + body + Forced(timestamp);
      assert newService == NewRecord(ServiceEntity.keyAttr, serviceId, body, map[], timestamp);
      var key := Get(newService, "serviceId");
      if !IsKey(key) {
        return Refused(500, ServiceEntity.addFailed);
      }
      items := items[key.value.s := newService];
      reply := Done(201, Some(newService));
    }

    /** `getServiceById`. */
    method GetServiceById(id: string) returns (reply: Reply)
      ensures reply == GetSpec(items, ServiceEntity, id)
    {
      if id !in items {
        return Refused(404, ServiceEntity.notFound);
      }
      reply := Done(200, Some(items[id]));
    }

    /** `updateService`; `id` is the route parameter, never empty. */
    method UpdateService(id: string, body: Object) returns (reply: Reply)
      requires Valid() && id != ""
      modifies this
      ensures Valid()
      ensures After(reply, items) == UpdateSpec(old(items), ServiceEntity, id, body, map[])
    {
      UpdateKeepsKeyed(items, ServiceEntity, id, body, map[]);
      var updatedService := body + map["serviceId" := Str(id)];
      assert updatedService == UpdatedRecord(ServiceEntity.keyAttr, id, body, map[]);
      items := items[id := updatedService];
      reply := Done(200, None);
    }

    /** `toggleServiceStatus`. */
    method ToggleServiceStatus(id: string, body: Object) returns (reply: Reply)
      requires Valid() && id != ""
      modifies this
      ensures Valid()
      ensures After(reply, items) == ToggleSpec(old(items), ServiceEntity, id, body)
    {
      ToggleKeepsKeyed(items, ServiceEntity, id, body);
      var enabled := Get(body, "enabled");
      if enabled.None? {
        return Refused(500, ToggleFailed);
      }
      var current := if id in items then items[id] else map["serviceId" := Str(id)];
      items := items[id := current["enabled" := enabled.value]];
      reply := Done(200, None);
    }

    /** `uploadServiceImage`: the file goes to the `services` folder of the bucket; the table is untouched. */
    method UploadServiceImage(bucket: Uploads.Bucket, file: Option<Uploads.UploadedFile>, uuid: string,
                              bucketName: string, region: string) returns (reply: Uploads.UploadReply)
      modifies bucket
      ensures file.None? ==> reply == Uploads.UploadRejected(400, Uploads.NoImageFile) && bucket.objects == old(bucket.objects)
      ensures file.Some? ==>
        var key := Uploads.ObjectKey("services", uuid, file.value.originalname);
        && reply == Uploads.Uploaded(Uploads.PublicUrl(bucketName, region, key))
        && bucket.objects == old(bucket.objects)[key := Uploads.StoredObject(file.value.mimetype, file.value.buffer)]
    {
      reply := bucket.PutImage("services", file, uuid, bucketName, region);
    }
  }
}
