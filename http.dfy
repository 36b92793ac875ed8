/** What an Express handler hands back: a status code and the object given to res.json. */
module Http {
  import opened Js

  datatype Reply = Reply(status: int, body: JsValue)

  /** `{ error: message }` */
  function ErrorBody(message: string): JsValue {
    Obj(map["error" := Str(message)])
  }

  /** `{ error: message, details: details }` */
  function ErrorWithDetails(message: string, details: JsValue): JsValue {
    Obj(map["error" := Str(message), "details" := details])
  }
}
