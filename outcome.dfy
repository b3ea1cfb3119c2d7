/** What a handler sends back, in place of an HTTP status and JSON body. */
module Outcome {
  import opened Store

  /** Why a 400 was sent, one constructor per distinct refusal message. */
  datatype Reason =
    | AlreadyLiked            // "Parent is already liked by the user" (both add handlers)
    | NotLiked
    | NotDisliked
    | UnknownKind             // an `on_model` other than Post, Comment or Reply
    | Duplicate               // the same author already wrote the same body on the same parent
    | ParentMissing
    | ReplyMissing
    | Rejected(message: string)  // the verdict of the content check
    | Unchanged
    | ChannelExists
    | BadChannelType
    | ChannelMissing
    | AlreadyElevated

  /** The payload of a success. */
  datatype Data =
    | Nothing
    | Target(tally: Tally)                      // the reacted-on document after the update
    | Counts(likeCount: int, dislikeCount: int)
    | Created(id: Id)
    | AdminList(ids: set<Id>)

  datatype Response =
    | Ok(data: Data)
    | MissingFields
    | BadRequest(reason: Reason)
    | Unauthorized
    | Forbidden
    | NotFound
      /** A refusal whose body nevertheless says `success: true`. */
    | RefusedAsSuccess(status: nat)
      /** A deterministic throw inside the handler, answered by its catch branch. */
    | ServerError
      /** The handler returns without answering. */
    | NoResponse
  {
    function Status(): nat {
      match this
      case Ok(_) => 200
      case MissingFields => 400
      case BadRequest(_) => 400
      case Unauthorized => 401
      case Forbidden => 403
      case NotFound => 404
      case RefusedAsSuccess(s) => s
      case ServerError => 500
      case NoResponse => 0
    }
  }
}
