/**
 * A response cached by the dealer, keyed by request UUID.  Identity is the UUID
 * alone: two cached responses are equal exactly when their UUIDs are.  Assignment
 * copies the UUID, the path, the data, the received timestamp and the container
 * size, and leaves the route, the code and the error message of the target as
 * they were; the copy constructor therefore yields code 0 and an empty route and
 * error message.
 */
module CachedResponses {
  import opened Wrappers

  type Byte = x: int | 0 <= x < 256

  /** `message_path`: the service alias and the handle a message is addressed to. */
  datatype MessagePath = MessagePath(serviceAlias: string, handleName: string)

  /** `timeval`: seconds and microseconds. */
  datatype Timeval = Timeval(seconds: int, microseconds: int)

  /** The error kinds a dealer error carries; only `resource_error` arises here. */
  datatype ErrorKind = ResourceError

  datatype DealerError = DealerError(kind: ErrorKind, message: string)

  /** All fields of a cached response, as one value. */
  datatype Fields = Fields(
    uuid: string, route: string, path: MessagePath, data: seq<Byte>,
    code: int, errorMessage: string, receivedTimestamp: Timeval, containerSize: nat)

  /** `operator=`: the five copied fields come from `rhs`, the other three stay. */
  function Assigned(lhs: Fields, rhs: Fields): (r: Fields)
    ensures r.uuid == rhs.uuid && r.path == rhs.path && r.data == rhs.data
    ensures r.receivedTimestamp == rhs.receivedTimestamp && r.containerSize == rhs.containerSize
    ensures r.route == lhs.route && r.code == lhs.code && r.errorMessage == lhs.errorMessage
  {
    lhs.(uuid := rhs.uuid, path := rhs.path, data := rhs.data,
         receivedTimestamp := rhs.receivedTimestamp, containerSize := rhs.containerSize)
  }

  /** Equality of cached responses: by UUID only. */
  predicate SameResponse(a: Fields, b: Fields)
  {
    a.uuid == b.uuid
  }

  /** After an assignment the target equals the source; repeating it changes nothing. */
  lemma AssignedProperties(lhs: Fields, rhs: Fields)
    ensures SameResponse(Assigned(lhs, rhs), rhs)
    ensures Assigned(Assigned(lhs, rhs), rhs) == Assigned(lhs, rhs)
    ensures Assigned(lhs, lhs) == lhs
  {
  }

  /**
   * Equality by UUID is an equivalence relation, and it ignores the payload: two
   * responses that differ in every other field are still the same response.
   */
  lemma SameResponseIsEquivalence(a: Fields, b: Fields, c: Fields)
    ensures SameResponse(a, a)
    ensures SameResponse(a, b) ==> SameResponse(b, a)
    ensures SameResponse(a, b) && SameResponse(b, c) ==> SameResponse(a, c)
    ensures SameResponse(a, a.(route := b.route, path := b.path, data := b.data, code := b.code,
                                errorMessage := b.errorMessage, receivedTimestamp := b.receivedTimestamp,
                                containerSize := b.containerSize))
  {
  }

  /** The size check of the data constructor. */
  function CheckDataSize(dataSize: nat, maxDataSize: nat): (r: Result<(), DealerError>)
    ensures r.Failure? <==> dataSize > maxDataSize
    ensures r.Failure? ==> r.error.kind == ResourceError
  {
    if dataSize > maxDataSize then
      Failure(DealerError(ResourceError, "can't create response, response data too big."))
    else
      Success(())
  }

  /** `cached_response_t`.  Locking is not modelled: every operation is atomic. */
  class CachedResponse {
    var uuid: string
    var route: string
    var path: MessagePath
    var data: seq<Byte>
    var code: int
    var errorMessage: string
    var receivedTimestamp: Timeval
    var containerSize: nat

    /** The whole state as one value. */
    function View(): Fields
      reads this
    {
      Fields(uuid, route, path, data, code, errorMessage, receivedTimestamp, containerSize)
    }

    /**
     * The default constructor: code 0, empty strings and data.  The C++ constructor
     * leaves the timestamp and the container size uninitialised; so does the model.
     */
    constructor ()
      ensures code == 0 && uuid == "" && route == "" && errorMessage == "" && data == []
      ensures path == MessagePath("", "")
    {
      uuid, route, errorMessage, data := "", "", "", [];
      path := MessagePath("", "");
      code := 0;
    }

    /** The copy constructor: default fields, then assignment from `response`. */
    constructor Copy(response: CachedResponse)
      ensures View() == Assigned(Fields("", "", MessagePath("", ""), [], 0, "", receivedTimestamp, containerSize),
                                 old(response.View()))
      ensures code == 0 && route == "" && errorMessage == ""
      ensures uuid == old(response.uuid)
    {
      uuid, route, errorMessage, data := "", "", "", [];
      path := MessagePath("", "");
      code := 0;
      new;
      Assign(response);
    }

    /** The error constructor: stores the given code and message, and no data. */
    constructor WithError(uuid: string, route: string, path: MessagePath, code: int, errorMessage: string)
      ensures this.uuid == uuid && this.route == route && this.path == path
      ensures this.code == code && this.errorMessage == errorMessage && data == []
    {
      this.uuid, this.route, this.path := uuid, route, path;
      this.code, this.errorMessage := code, errorMessage;
      data := [];
    }

    /**
     * The data constructor with its check: data larger than `maxDataSize` makes
     * it throw `resource_error`; otherwise the data is stored.
     */
    static method FromData(uuid: string, route: string, path: MessagePath, data: seq<Byte>, maxDataSize: nat)
      returns (r: Result<CachedResponse, DealerError>)
      ensures r.Failure? <==> |data| > maxDataSize
      ensures r.Failure? ==> r.error.kind == ResourceError
      ensures r.Success? ==>
        && fresh(r.value) && r.value.uuid == uuid && r.value.route == route
        && r.value.path == path && r.value.data == data && r.value.code == 0 && r.value.errorMessage == ""
    {
      var check := CheckDataSize(|data|, maxDataSize);
      if check.Failure? {
        return Failure(check.error);
      }
      var response := new CachedResponse();
      response.uuid, response.route, response.path := uuid, route, path;
      response.data := data;
      return Success(response);
    }

    /** `operator=`; a self-assignment returns at once. */
    method Assign(rhs: CachedResponse)
      modifies this
      ensures View() == Assigned(old(View()), old(rhs.View()))
      ensures rhs == this ==> View() == old(View())
      ensures Equals(rhs)
    {
      if this == rhs {
        return;
      }
      uuid := rhs.uuid;
      path := rhs.path;
      data := rhs.data;
      receivedTimestamp := rhs.receivedTimestamp;
      containerSize := rhs.containerSize;
    }

    /** `operator==`: by UUID only. */
    predicate Equals(rhs: CachedResponse)
      reads this, rhs
    {
      SameResponse(View(), rhs.View())
    }

    /** `operator!=`: the negation of `==`. */
    predicate NotEquals(rhs: CachedResponse)
      reads this, rhs
    {
      !Equals(rhs)
    }

    method SetReceivedTimestamp(val: Timeval)
      modifies this
      ensures View() == old(View()).(receivedTimestamp := val)
    {
      receivedTimestamp := val;
    }

    method SetCode(code: int)
      modifies this
      ensures View() == old(View()).(code := code)
    {
      this.code := code;
    }

    method SetErrorMessage(message: string)
      modifies this
      ensures View() == old(View()).(errorMessage := message)
    {
      errorMessage := message;
    }
  }

  /** Equality compares UUIDs, and `!=` is its negation, whatever the other fields hold. */
  lemma EqualsIsUuidEquality(a: CachedResponse, b: CachedResponse)
    ensures a.Equals(b) <==> a.uuid == b.uuid
    ensures a.NotEquals(b) <==> a.uuid != b.uuid
  {
  }
}
