/** What a handler sends back: a status code and a JSON body. */
module Http {
  import opened JsValues
  import opened Records

  /** The JSON bodies the modelled handlers produce. */
  datatype Body =
    | Message(message: string)                                          // `{ message }`
    | Failure(error: string)                                            // `{ error }`
    | InfluencerWithPosts(influencer: InfluencerRow, posts: seq<PostRow>) // an Influencer with `posts` included
    | Json(value: Value)                                                // any other JSON value

  datatype Response = Response(status: int, body: Body)
}
