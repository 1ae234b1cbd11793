/**
 * The two API Gateway Lambda handlers (typesafe-lambda-api/src/handlers):
 * `users.ts` validates a new user and answers 400 or 201, `hello.ts` greets
 * by name. Both attach the same CORS headers. The UUID generator is a
 * parameter, and the body is already decoded from its JSON text.
 */
module LambdaHandlers {
  import opened Wrappers
  import opened JsValues

  /** The response headers in the order the handlers list them. */
  const CORS_HEADERS: seq<(string, string)> := [
    ("Access-Control-Allow-Origin", "*"),
    ("Access-Control-Allow-Headers", "Content-Type,X-Amz-Date,Authorization,X-Api-Key,X-Amz-Security-Token"),
    ("Access-Control-Allow-Methods", "GET,OPTIONS")
  ]

  const NAME_AND_EMAIL_REQUIRED := "Name and email are required"

  /** The JSON the handlers write into the response body. */
  datatype Body = MessageBody(message: string) | UserBody(id: string, name: string, email: string)

  datatype ProxyResult = ProxyResult(statusCode: nat, headers: seq<(string, string)>, body: Body)

  /** The decoded `POST /users` body; either key may be missing. */
  datatype UsersPostRequest = UsersPostRequest(name: Option<string>, email: Option<string>)

  /** The decoded query string of `GET /hello`. */
  datatype HelloGetRequest = HelloGetRequest(name: Option<string>)

  /**
   * `users.ts`: a missing or empty body counts as `{}`; without a name and an
   * email the answer is 400, otherwise 201 with the user and the fresh id.
   */
  function CreateUserHandler(body: Option<UsersPostRequest>, freshId: string): (r: ProxyResult)
    ensures r.headers == CORS_HEADERS
    ensures r.statusCode == 201 <==>
      body.Some? && body.value.name.Some? && body.value.name.value != ""
      && body.value.email.Some? && body.value.email.value != ""
    ensures r.statusCode != 201 ==> r == ProxyResult(400, CORS_HEADERS, MessageBody(NAME_AND_EMAIL_REQUIRED))
    ensures r.statusCode == 201 ==> r.body == UserBody(freshId, body.value.name.value, body.value.email.value)
  {
    var request := body.GetOr(UsersPostRequest(None, None));
    if !Truthy(request.name) || !Truthy(request.email) then
      ProxyResult(400, CORS_HEADERS, MessageBody(NAME_AND_EMAIL_REQUIRED))
    else
      ProxyResult(201, CORS_HEADERS, UserBody(freshId, request.name.value, request.email.value))
  }

  /** `hello.ts`: greet the query's name, or "World" when it is missing or empty. */
  function HelloHandler(query: Option<HelloGetRequest>): (r: ProxyResult)
    ensures r.statusCode == 200 && r.headers == CORS_HEADERS && r.body.MessageBody?
    ensures query.None? || !Truthy(query.value.name) ==> r.body.message == "Hello, World!"
    ensures query.Some? && Truthy(query.value.name) ==> r.body.message == "Hello, " + query.value.name.value + "!"
  {
    var name := if query.Some? then OrElse(query.value.name, "World") else "World";
    ProxyResult(200, CORS_HEADERS, MessageBody("Hello, " + name + "!"))
  }

  /** The name a greeting addresses: the text between "Hello, " and the final "!". */
  function GreetedName(message: string): string
    requires |message| >= 8
  {
    message[7..|message| - 1]
  }

  /** The greeting can be read back: it addresses exactly the name the handler chose. */
  lemma HelloGreetsName(query: Option<HelloGetRequest>)
    ensures var m := HelloHandler(query).body.message;
      |m| >= 8 && m[..7] == "Hello, " && m[|m| - 1] == '!'
      && GreetedName(m) == if query.Some? && Truthy(query.value.name) then query.value.name.value else "World"
  {
  }

  /** The generated id reaches only the 201 body: two calls that differ in it alone agree on everything else. */
  lemma FreshIdOnlyInCreatedBody(body: Option<UsersPostRequest>, id1: string, id2: string)
    ensures var r1 := CreateUserHandler(body, id1); var r2 := CreateUserHandler(body, id2);
      && r1.statusCode == r2.statusCode
      && r1.headers == r2.headers
      && (r1.statusCode == 400 ==> r1 == r2)
      && (r1.statusCode == 201 ==> r1.body.(id := id2) == r2.body && r1.body.id == id1)
  {
  }
}
