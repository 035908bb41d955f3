# Blink-Cart core, modelled in Dafny

Blink-Cart is a grocery delivery web application (Next.js with MongoDB)
with a separate socket.io relay for live events. Customers fill a cart,
check out and follow their orders. Admins manage the catalogue and the
orders. Delivery partners take assigned orders, chat with the customer and
confirm the hand-over with a one-time code the customer receives by mail.

This project models the parts of it that decide something, one module per
component:

- `DeliveryOtp` (delivery_otp.dfy): issuing and checking the delivery code.
  This is a guard chain with one status code per exit. A success marks the
  code used, the order delivered and the assignment completed.
  `DeliveryDb` is the store as a class whose methods run the two routes in
  place; they are proved equal to the functions `Request` and `Verify`.
- `DeliveryQueries`: the partner's active job and completed history.
- `UserOrders` and `Models`: placing and listing a customer's orders, and
  the stored records with their enumerations and defaults.
- `Presence` and `SocketServer`: the location and presence routes of the
  web application (`UserDirectory` runs them in place), and the relay's
  per-connection handlers (`Connection`) and its `/notify` endpoint.
- `Access`: the request proxy's prefix and role gate, the home page's
  profile check and dashboard choice, and registration.
- `Chat`: the send and reply-suggestion routes (`ChatDb` runs the send in
  place), the normaliser of the language model's reply, and the chat room's
  message list.
- `Cart` and `Checkout`: the cart reducers (`CartSlice` changes the cart in
  place), the bill, and the checkout guards, coordinates and payload.
- `OrderFeed` and `ManageOrders`: the admin dashboard's order list, activity
  feed, stat cards, recent orders, revenue by weekday and status chart; and
  the manage-orders page's search, socket reducers and status save.
- `Delivered`, `GroceryViews` and `Hero`: the partner's history page, the
  two grocery searches with edit and delete, and the home carousel.

Things outside the program are inputs:

- SHA-256 is an injective constructor.
- bcrypt is a symbolic hash of the password.
- `Math.random()` is a real in [0, 1).
- `Date.now()` is a parameter `now`.
- `JSON.parse`, the geocoder, the browser's position fix and the printing
  of a number are function parameters.
- Whether the SMTP settings exist, whether a mail is accepted, whether a
  request to another service succeeds and whether the database throws are
  booleans.

Requests run one at a time against a store of sequences. Prices are whole
numbers.

## Model

| member | source | states |
|---|---|---|
| DeliveryOtp.LatestOtp | blinkcart/src/app/api/delivery/delivery-otp/verify/route.ts:39-41 | a record of the order with no later-created record of the order; none exactly when the order has no record |
| DeliveryOtp.CustomerEmail | blinkcart/src/app/api/delivery/delivery-otp/request/route.ts:36-46 | a found email is non-empty and belongs to the order's user; an order whose user does not resolve has none; once the user resolves, an email is found exactly when the user's email is not empty |
| DeliveryOtp.OtpCode | blinkcart/src/app/api/delivery/delivery-otp/request/route.ts:61 | the code is between 100000 and 999999 |
| DeliveryOtp.Decimal | blinkcart/src/app/api/delivery/delivery-otp/request/route.ts:61 | String() of a natural number: at least one character, all decimal digits |
| DeliveryOtp.DecimalLength | blinkcart/src/app/api/delivery/delivery-otp/request/route.ts:61 | a number in [10^(k-1), 10^k) prints with k digits |
| DeliveryOtp.DecimalInjective | blinkcart/src/app/api/delivery/delivery-otp/request/route.ts:61 | two numbers print the same exactly when they are equal |
| DeliveryOtp.CodeIsSixDigits | blinkcart/src/app/api/delivery/delivery-otp/request/route.ts:61 | the mailed code has six characters and trimming leaves it unchanged |
| DeliveryOtp.DecimalTrimmed | blinkcart/src/app/api/delivery/delivery-otp/verify/route.ts:52 | a printed number has no white space to trim |
| DeliveryOtp.Verify | blinkcart/src/app/api/delivery/delivery-otp/verify/route.ts:14-82 | each answer is characterised both ways, in guard order: 401 without a session, 400 "orderId and otp required" when either is missing, 403 when the caller holds no assigned assignment of the order, then 400 "otp not found" when the order has no code, "otp already used" when its latest code is used, "otp expired" when that code's expiry is strictly before now, "invalid otp" when its hash is not that of the trimmed submission, and 200 otherwise; a failure changes nothing and announces nothing; a success marks that code used, completes that assignment, sets the order delivered and announces it exactly when the order exists |
| DeliveryOtp.Confirm | blinkcart/src/app/api/delivery/delivery-otp/verify/route.ts:57-75 | the three writes of a success and the event, which is sent exactly when the order exists |
| DeliveryOtp.WithoutOrder | blinkcart/src/app/api/delivery/delivery-otp/request/route.ts:64 | no remaining record belongs to the order |
| DeliveryOtp.Request | blinkcart/src/app/api/delivery/delivery-otp/request/route.ts:14-93 | 401 iff no session; 400 "orderId required" iff a caller sends no order id; 403 iff an order id is given and the caller holds no assigned assignment of it; 404 iff the assignment is held and the order is unknown; 400 "user email missing" iff the order is found and its customer has no email; once all of these pass, a mail is sent exactly when SMTP is configured (otherwise 500 "SMTP config missing"), to the customer's email, carrying the six-digit code; without a mail nothing changes and the answer is not 200; with a mail the order's records are replaced by one new record holding the code's hash, and the answer is 200 "success" when the transport accepts the mail and 500 "request otp error" when it refuses it |
| DeliveryOtp.VerifyKeepsOneActivePerJob | blinkcart/src/app/api/delivery/delivery-otp/verify/route.ts:63-64 | verifying keeps at most one active assignment per order and partner |
| DeliveryOtp.RequestKeepsOneActivePerJob | blinkcart/src/app/api/delivery/delivery-otp/request/route.ts:64-69 | requesting a code keeps at most one active assignment per order and partner |
| DeliveryOtp.SecondVerifyForbidden | blinkcart/src/app/api/delivery/delivery-otp/verify/route.ts:30-37 | after a successful verify, any further verify of the order by the same partner answers 403 |
| DeliveryOtp.RequestReplacesOrderCodes | blinkcart/src/app/api/delivery/delivery-otp/request/route.ts:64-69 | after a stored request the order has exactly one record, the new one, stored last; every other order keeps its records in order |
| DeliveryOtp.ReplaceCodes | blinkcart/src/app/api/delivery/delivery-otp/request/route.ts:64-69 | deleting an order's records and appending one for it leaves the other orders' records as they were |
| DeliveryOtp.RequestThenVerify | blinkcart/src/app/api/delivery/delivery-otp/verify/route.ts:39-55 | a verify of the mailed code, with any surrounding white space, within ten minutes of the request succeeds |
| DeliveryOtp.RequestThenVerifyOnlyThatCode | blinkcart/src/app/api/delivery/delivery-otp/verify/route.ts:39-55 | within ten minutes a verify succeeds exactly for submissions that trim to the mailed code; after that every submission is refused as expired |
| DeliveryOtp.RequestCodeIsLatest | blinkcart/src/app/api/delivery/delivery-otp/request/route.ts:64-69 | after a request the new record is the order's latest |
| DeliveryOtp.OtherCodeRejected | blinkcart/src/app/api/delivery/delivery-otp/verify/route.ts:52-55 | any other number is refused as an invalid code |
| DeliveryOtp.VerifyAtLatest | blinkcart/src/app/api/delivery/delivery-otp/verify/route.ts:45-55 | once the earlier guards pass, the answer is decided by the hash comparison alone |
| DeliveryOtp.FindLatestOtp | blinkcart/src/app/api/delivery/delivery-otp/verify/route.ts:39-41 | the scan returns exactly LatestOtp |
| DeliveryOtp.DeleteOrderOtps | blinkcart/src/app/api/delivery/delivery-otp/request/route.ts:64 | the scan keeps exactly the other orders' records, in order |
| DeliveryOtp.DeliveryDb.VerifyOtp | blinkcart/src/app/api/delivery/delivery-otp/verify/route.ts:14-82 | the route run on the store in place: response, new store and event are exactly Verify's |
| DeliveryOtp.DeliveryDb.Apply | blinkcart/src/app/api/delivery/delivery-otp/verify/route.ts:57-73 | the writes in place: exactly Confirm's store and event |
| DeliveryOtp.DeliveryDb.RequestOtp | blinkcart/src/app/api/delivery/delivery-otp/request/route.ts:14-93 | the route run on the store in place: response, new store and mail are exactly Request's |
| DeliveryQueries.CurrentOrder | blinkcart/src/app/api/delivery/current-order/route.ts:7-41 | always status 200; the error body iff the query fails; no active job iff no assignment is assigned to the caller; a returned job is a stored assigned assignment held by the caller when there is a session |
| DeliveryQueries.CurrentOrderWithoutSession | blinkcart/src/app/api/delivery/current-order/route.ts:11-15 | without a session any partner's assigned assignment is returned |
| DeliveryQueries.ResolveUser | blinkcart/src/app/api/delivery/completed-assignments/route.ts:17-23 | the session's id when truthy; otherwise, with a session email, a user id exactly when some user has that email, and then the id of a user with it |
| DeliveryQueries.CompletedAssignments | blinkcart/src/app/api/delivery/completed-assignments/route.ts:7-42 | 401 iff the session has neither email nor id; 500 iff the query fails; 404 iff no user id resolves; a 200 lists exactly the stored assignments the user completed |
| DeliveryQueries.VerifyMovesJobToHistory | blinkcart/src/app/api/delivery/delivery-otp/verify/route.ts:57-64 | after a successful verify the partner's active job is no longer that order, and the completed history lists the assignment of that order |
| UserOrders.MyOrders | blinkcart/src/app/api/user/myorder/route.ts:6-40 | 401 iff no session; 400 iff the query fails; a 200 lists exactly the caller's orders that are cash on delivery or paid, each once as stored, newest first |
| UserOrders.PlaceOrder | blinkcart/src/app/api/user/order/route.ts:6-46 | 400 iff a field is missing or falsy (a total of 0 included) or the items are empty; 404 iff the user does not exist; 500 iff the fields and user pass and the schema refuses the payment method or an item; a 201 appends one pending, unpaid order with the new id, of that user, with the given items, address, total and payment method, and nothing else changes |
| UserOrders.PlacedOrderVisibleIffCod | blinkcart/src/app/api/user/myorder/route.ts:16-22 | a placed order shows in the customer's list exactly when it is cash on delivery, since upi and card orders are stored unpaid |
| Models.ParsePaymentMethod | blinkcart/src/modals/order.model.ts:56-58 | only "cod", "upi" and "card" pass the enum, each to its own method |
| Models.NewOrder | blinkcart/src/modals/order.model.ts:71-87 | a new order is pending and unpaid and carries exactly the given id, user, items, payment method, address, total and time |
| Models.NewUser | blinkcart/src/modals/user.model.ts:38-64 | a new user has role user, is offline, has no socket and no mobile number, sits at location [0, 0], and carries the given id, name, email and password hash |
| Models.StatusNameInjective | blinkcart/src/modals/order.model.ts:71-82 | distinct statuses are stored under distinct names |
| Presence.Coord | blinkcart/src/app/api/socket/updatelocation/route.ts:16-18 | the i-th coordinate when present, otherwise a non-finite value |
| Presence.DefaultLocationIsNoFix | blinkcart/src/modals/user.model.ts:55-64 | the schema's default point [0, 0] is refused by the coordinate guard, while a point with only one zero coordinate is accepted |
| Presence.UpdateLocation | blinkcart/src/app/api/socket/updatelocation/route.ts:5-43 | 200 iff a user id and a location are given, the [longitude, latitude] pair is finite and not (0, 0), the user exists and the location's 2dsphere index accepts the point (type Point, longitude in [-180, 180], latitude in [-90, 90]); 500 iff everything but the index check passes; a 200 stores the location as submitted on that user alone and echoes it; every failure changes nothing |
| Presence.ApplyUpdate | blinkcart/src/app/api/socket/connect/route.ts:16-25 | the fields present in the update are written and every other field of the user is kept |
| Presence.Connect | blinkcart/src/app/api/socket/connect/route.ts:5-43 | 200 iff a user id is given, the update has a socket id (null included) or a boolean online flag, and the user exists; a 200 applies the update to that user alone; every 400 changes nothing |
| Presence.PresenceKeepsIdentity | blinkcart/src/app/api/socket/connect/route.ts:16-25 | both routes keep every user's id and email, so unique emails stay unique |
| Presence.UserDirectory.UpdateLocationRoute | blinkcart/src/app/api/socket/updatelocation/route.ts:5-43 | the route run on the stored users in place: exactly UpdateLocation's outcome |
| Presence.UserDirectory.ConnectRoute | blinkcart/src/app/api/socket/connect/route.ts:5-43 | the route run on the stored users in place, building the update field by field: exactly Connect's outcome |
| SocketServer.IdentityPost | socketserver/index.js:39-43 | the identity post carries the user id, this socket's id and online |
| SocketServer.DisconnectPost | socketserver/index.js:84-88 | the disconnect post carries the user id, a null socket id and offline |
| SocketServer.PointOf | socketserver/index.js:59-62 | the posted point is a GeoJSON Point whose first coordinate is the longitude and second the latitude |
| SocketServer.UpdateLocationHandler | socketserver/index.js:50-78 | the point is posted iff both fields are numbers and not both zero; the fix is broadcast iff it was posted and the post succeeded, and never with an accuracy |
| SocketServer.OverJson | socketserver/index.js:50-57 | a field crosses socket.io's JSON unchanged unless it is NaN or infinite, which arrives as null, an object without an accuracy; a number that arrives is finite |
| SocketServer.RelayLocation | socketserver/index.js:50-78 | the event is posted exactly when the arrived fields pass the guard, and then both are finite; a post the gate lets through writes what the route writes and is broadcast exactly when the route answers 200; any other post writes nothing and is broadcast exactly when the redirect target answered with success |
| SocketServer.NonFiniteDropped | socketserver/index.js:52-58 | a NaN or infinite coordinate is never posted, stored or broadcast |
| SocketServer.RelayPostsRedirected | blinkcart/src/proxy.ts:13-19 | the relay's tokenless posts to /api/socket/connect and /api/socket/updatelocation are redirected to the login page |
| SocketServer.RelayWritesNothing | socketserver/index.js:35-91 | as written, no identity, disconnect or location post of the relay changes any user |
| SocketServer.RelayConnect | socketserver/index.js:38-43 | a post the gate lets through writes what the connect route writes, and any other writes nothing |
| SocketServer.ForwardedFixStoredIffValid | socketserver/index.js:50-78 | with the relay's routes let through the proxy, a fix that leaves the relay is stored and broadcast exactly when its user exists and the index accepts the point, and the stored point is then that user's only change |
| SocketServer.Notify | socketserver/index.js:96-106 | always 200; delivered to one socket iff the socket id is truthy, otherwise broadcast to all |
| SocketServer.Connection.constructor | socketserver/index.js:32 | a new connection has its socket id and no user yet |
| SocketServer.Connection.Identity | socketserver/index.js:35-48 | records the announced user on the connection and posts IdentityPost |
| SocketServer.Connection.Disconnect | socketserver/index.js:80-91 | posts DisconnectPost iff a user id was recorded |
| SocketServer.IdentityThenDisconnect | socketserver/index.js:35-91 | with the relay's routes let through the proxy, an identity then a disconnect both succeed and leave the user offline with no socket, everything else unchanged |
| Access.EffectiveRole | blinkcart/src/proxy.ts:21-30 | the role checked is the stored user's role when the token has an email and the lookup found a truthy role; a failed lookup, no user or an empty stored role leave the token's role |
| Access.Proxy | blinkcart/src/proxy.ts:6-45 | a path under /login, /register or /api/auth passes; otherwise no token redirects to the login page with the request URL as callback; a request passes exactly when it is public or has a token whose effective role matches every gated prefix (/user, /delivery, /admin) the path starts with |
| Access.IsPublic | blinkcart/src/proxy.ts:9-12 | a path is public exactly when it starts with /login, /register or /api/auth; no path under /user, /delivery or /admin is public |
| Access.Gate | blinkcart/src/proxy.ts:6-51 | a request passes exactly when the matcher skips its path (the Stripe webhook, static files, the favicon), the path is public, or it has a token whose effective role matches every gated prefix; a selected, non-public path without a token goes to the login page |
| Access.WebhookUngated | blinkcart/src/proxy.ts:47-51 | the Stripe webhook passes without a session |
| Access.GateCorrected | blinkcart/src/proxy.ts:47-51 | paths under /api/socket/ pass, and every other path is gated exactly as before |
| Access.PrefixNotSegment | blinkcart/src/proxy.ts:9-39 | the gate matches string prefixes, not path segments: /users and /administrator are gated, /login-help and /api/authority are public |
| Access.StoredRoleWins | blinkcart/src/proxy.ts:21-30 | a token claiming admin is refused /admin when the stored role is user, and passes when the lookup fails or the stored role is empty |
| Access.IncompleteMeansMissingField | blinkcart/src/app/page.tsx:32 | the profile is incomplete exactly when the mobile number or the role is missing; the third disjunct adds nothing |
| Access.Home | blinkcart/src/app/page.tsx:19-43 | no user document redirects to login; an incomplete profile shows the role-and-mobile form; otherwise role user shows the customer dashboard with the search (default empty), admin the admin dashboard, any other role the delivery dashboard; each view iff its condition |
| Access.Register | blinkcart/src/app/api/auth/register/route.ts:6-46 | an existing email answers 400 first; otherwise a missing password answers 500, a password under seven characters 400, and with a long enough password the answer is 201 exactly when name and email are both given; a 201 appends one user with the new id, the given name and email, the bcrypt hash, role user, offline and at the default location, whose email no earlier user had |
| Access.RegisterKeepsEmailsUnique | blinkcart/src/app/api/auth/register/route.ts:10-32 | registration keeps the users' emails unique |
| Access.PasswordBoundary | blinkcart/src/app/api/auth/register/route.ts:19-26 | a seven-character password is accepted and a six-character one refused |
| Chat.EnsureRoom | blinkcart/src/app/api/chat/message/route.ts:77-84 | an existing room for the order is kept; otherwise one is created with the order, its customer and its partner, and the create fails when the customer is missing; afterwards the order has a room |
| Chat.EnsureRoomKeepsUnique | blinkcart/src/app/api/chat/message/route.ts:77-84 | find-or-create keeps one room per order |
| Chat.IsObjectId | blinkcart/src/app/api/chat/message/route.ts:48 | an accepted order id is not empty and has no white space at either end |
| Chat.SenderRole | blinkcart/src/app/api/chat/message/route.ts:86-87 | the stored user's role when the sender is found, else deliveryBoy for the assigned partner and user for anyone else; always one of the three role names |
| Chat.SocketOrNull | blinkcart/src/app/api/chat/message/route.ts:105-106 | only a truthy socket id of an existing participant survives; anything else becomes null |
| Chat.FanOutAsWritten | blinkcart/src/app/api/chat/message/route.ts:105-114 | exactly two notify calls, customer then partner; each goes to that participant's socket when the participant has a socket id, and to every connected socket otherwise |
| Chat.BroadcastWhenSocketMissing | socketserver/index.js:99-103 | when either participant has no socket id, the chat message is broadcast to every connected socket |
| Chat.FanOut | blinkcart/src/app/api/chat/message/route.ts:105-114 | the intended fan-out: every delivery goes to a socket, only to a participant's socket, and each participant with a socket is reached |
| Chat.Notified | blinkcart/src/app/api/chat/message/route.ts:21-34 | a missing socket sends nothing, a present one sends to that socket only |
| Chat.PostMessage | blinkcart/src/app/api/chat/message/route.ts:36-123 | every status is characterised both ways, in guard order: 401 without a session, 400 for an id that is not an ObjectId, 400 for blank text, 404 for an unknown order, 400 when no partner is assigned, 403 for a requester who is neither participant, 500 when the room cannot be made or the trimmed text is over 500 characters, and 200 otherwise; a 200 stores one message with the trimmed text and the sender's role under the order's room, changes nothing else, and relays as FanOutAsWritten of the order; every failure stores no message and sends nothing, and the 4xx ones change nothing |
| Chat.PostBroadcastsWhenSocketMissing | blinkcart/src/app/api/chat/message/route.ts:105-114 | as written, a sent message whose customer or partner has no socket id is relayed to every connected socket |
| Chat.PostMessageCorrected | blinkcart/src/app/api/chat/message/route.ts:36-123 | the same answer and store as PostMessage; a 200 delivers FanOut of the order, and no delivery ever goes to every socket |
| Chat.Send | blinkcart/src/app/api/chat/message/route.ts:59-116 | once the order is found: 400 iff no partner is assigned, 403 iff the requester is neither participant, 500 iff the room cannot be made or the text exceeds 500 characters (a made room is kept), 200 otherwise, which appends the message, makes the room and relays as FanOutAsWritten |
| Chat.PostKeepsRoomsUnique | blinkcart/src/app/api/chat/message/route.ts:36-123 | sending keeps one room per order |
| Chat.SendKeepsRoomsUnique | blinkcart/src/app/api/chat/message/route.ts:59-116 | the send after the order lookup keeps one room per order |
| Chat.ChatDb.Post | blinkcart/src/app/api/chat/message/route.ts:36-123 | the route run on the store in place: response, store and deliveries are exactly PostMessage's |
| Chat.ChatDb.SendFound | blinkcart/src/app/api/chat/message/route.ts:59-116 | the steps after the order lookup, in place: exactly Send's outcome |
| Chat.StripMarker | blinkcart/src/app/api/chat/suggestions/route.ts:38 | the result is a suffix of the line, every dropped character is a list marker, digit, dot or space, and the result does not start with one |
| Chat.LastIndexOfChar | blinkcart/src/app/api/chat/suggestions/route.ts:25 | the index holds the character and no later position does |
| Chat.Bracketed | blinkcart/src/app/api/chat/suggestions/route.ts:24-27 | the slice from the first [ to the last ] starts with [ and ends with ]; a reply without [ has none |
| Chat.FirstFour | blinkcart/src/app/api/chat/suggestions/route.ts:30 | the first four entries that are not blank, in their order: as many as there are non-blank entries up to four, the k-th being the k-th non-blank entry of the input |
| Chat.TrimAll | blinkcart/src/app/api/chat/suggestions/route.ts:30 | each element trimmed, with no white space left at either end |
| Chat.CleanLine | blinkcart/src/app/api/chat/suggestions/route.ts:38 | a cleaned line has no white space at either end and does not start with a marker character |
| Chat.CleanLines | blinkcart/src/app/api/chat/suggestions/route.ts:36-38 | one cleaned line per input line |
| Chat.FromArray | blinkcart/src/app/api/chat/suggestions/route.ts:29-30 | the trimmed k-th non-blank element of the parsed array for each k below four and the number of such elements, and nothing else |
| Chat.FromLines | blinkcart/src/app/api/chat/suggestions/route.ts:36-40 | the k-th non-blank cleaned line of the reply for each k below four and the number of such lines, none starting with a marker |
| Chat.NormalizeSuggestions | blinkcart/src/app/api/chat/suggestions/route.ts:21-41 | an empty reply gives none; a reply whose bracketed part parses as an array gives its first four non-blank elements, trimmed and in order; any other reply gives its first four non-blank cleaned lines, in order |
| Chat.ArrayRoundTrip | blinkcart/src/app/api/chat/suggestions/route.ts:24-31 | a reply whose bracketed part is an array of at most four non-blank trimmed strings gives back exactly those strings |
| Chat.NoBracketNoParse | blinkcart/src/app/api/chat/suggestions/route.ts:24-26 | without a [ the parser is never consulted: any two parsers give the same suggestions |
| Chat.LeadingNumberStripped | blinkcart/src/app/api/chat/suggestions/route.ts:36-40 | the fallback eats a leading number: the one-line reply "5 min" becomes "min" |
| Chat.StripFiveMin | blinkcart/src/app/api/chat/suggestions/route.ts:38 | the marker pattern strips "5 " from "5 min" |
| Chat.LatestUserText | blinkcart/src/app/api/chat/suggestions/route.ts:84-93 | "" when the room has no customer message; otherwise the text of a customer message of the room with no later one in store order |
| Chat.PromptContext | blinkcart/src/app/api/chat/suggestions/route.ts:53-93 | the trimmed hint when it is not blank, otherwise the room's latest customer message |
| Chat.Suggest | blinkcart/src/app/api/chat/suggestions/route.ts:43-135 | every status is characterised both ways: 401 without a session, 400 for an id that is not an ObjectId, 403 for a requester whose stored role is not deliveryBoy or who is not the found order's assignee, 404 for an unknown order, 500 when the room cannot be made or the API key is missing, 200 otherwise; a 200 makes the order's room, quotes the prompt context and returns the normalised reply; failures return no suggestions and the 4xx ones leave the rooms as they were |
| Chat.SuggestFor | blinkcart/src/app/api/chat/suggestions/route.ts:68-128 | once the order is found: 403 iff the requester is not its assigned partner, 500 iff the room cannot be made or the API key is missing, 200 otherwise; for the assigned partner the room is made whenever it can be, even when the key is missing |
| Chat.CustomerCannotSuggest | blinkcart/src/app/api/chat/suggestions/route.ts:59-62 | a requester who is not a stored delivery partner never gets suggestions |
| Chat.AppendUnique | blinkcart/src/components/ChatRoom.tsx:70-75 | a message whose truthy id is already listed is dropped, anything else is appended |
| Chat.AppendUniqueKeepsIdsUnique | blinkcart/src/components/ChatRoom.tsx:70-75 | the de-duplicating append keeps truthy message ids unique |
| Chat.OnIncoming | blinkcart/src/components/ChatRoom.tsx:67-76 | an event for another order or without text is ignored; an event for this order with text appends the message unless a message with its truthy id is already listed |
| Chat.SendMessage | blinkcart/src/components/ChatRoom.tsx:92-115 | nothing is posted iff the trimmed text or the order id is empty; the trimmed text is posted and the echoed message appended unless already there |
| Chat.EchoAndEventOnce | blinkcart/src/components/ChatRoom.tsx:67-107 | the sender sees its message exactly once, whichever of the echo and the socket event comes first |
| Chat.LastUserMessage | blinkcart/src/components/ChatRoom.tsx:87-90 | empty when no message is from the customer; otherwise the text of a customer message with no later customer message |
| Chat.LastUserMessageAfterAppend | blinkcart/src/components/ChatRoom.tsx:87-90 | appending a customer message makes it the latest; appending another message changes nothing |
| Cart.AddToCart | blinkcart/src/redux/CartSlice.ts:28-37 | a line with the payload's id gains one unit whatever the payload's quantity; an unknown id appends the payload |
| Cart.Increment | blinkcart/src/redux/CartSlice.ts:38-43 | the first line with the id gains one unit and nothing else changes; an unknown id leaves the cart as it is |
| Cart.Decrement | blinkcart/src/redux/CartSlice.ts:45-55 | the first line with the id loses one unit when above one; at one unit or less every line with the id is removed and the cart gets shorter; an unknown id changes nothing |
| Cart.FilterShorter | blinkcart/src/redux/CartSlice.ts:52 | a filter that rejects some line returns fewer lines |
| Cart.DecrementRemovesOneLine | blinkcart/src/redux/CartSlice.ts:48-53 | with unique ids, removing a last unit drops exactly that line and keeps the rest in order |
| Cart.AddKeepsIdsUnique | blinkcart/src/redux/CartSlice.ts:28-37 | adding keeps line ids unique |
| Cart.QuantityKeepsIdsUnique | blinkcart/src/redux/CartSlice.ts:32 | changing one line's quantity keeps ids unique |
| Cart.WithoutKeepsIdsUnique | blinkcart/src/redux/CartSlice.ts:52 | dropping one line keeps ids unique |
| Cart.IncrementKeepsIdsUnique | blinkcart/src/redux/CartSlice.ts:38-43 | increment keeps ids unique |
| Cart.DecrementKeepsIdsUnique | blinkcart/src/redux/CartSlice.ts:45-55 | decrement keeps ids unique |
| Cart.ReplayKeepsIdsUnique | blinkcart/src/redux/CartSlice.ts:27-56 | any sequence of the three reducers keeps ids unique |
| Cart.InitialCartIdsUnique | blinkcart/src/redux/CartSlice.ts:20-22 | from the empty initial cart, every reachable cart has unique ids |
| Cart.DecrementUndoesIncrement | blinkcart/src/redux/CartSlice.ts:38-55 | minus right after plus on a line in the cart restores the cart |
| Cart.DecrementUndoesAdd | blinkcart/src/redux/CartSlice.ts:28-55 | removing a new single-unit line right after adding it restores the cart |
| Cart.DeliveryFee | blinkcart/src/app/user/cart/page.tsx:29 | the fee is 40 exactly when the subtotal is positive and 0 exactly when it is not |
| Cart.LineTotal | blinkcart/src/app/user/cart/page.tsx:28 | a line of no units costs nothing and a line of one unit costs its price |
| Cart.ItemTotal | blinkcart/src/app/user/cart/page.tsx:28 | the empty cart has subtotal 0, and lines of non-negative cost never give a negative subtotal |
| Cart.TotalToPay | blinkcart/src/app/user/cart/page.tsx:29-30 | a positive subtotal is charged with the flat fee of 40 added, any other subtotal as it is; the total is never below the subtotal |
| Cart.CanProceed | blinkcart/src/app/user/cart/page.tsx:32-36 | when checkout cannot be opened the cart's subtotal and total to pay are both 0 |
| Cart.FeeIffCanProceed | blinkcart/src/app/user/cart/page.tsx:28-36 | with positively priced lines the fee is charged exactly when checkout can be opened, and an empty cart costs nothing in all |
| Cart.AddToCartTotal | blinkcart/src/app/user/cart/page.tsx:28 | adding raises the subtotal by one unit price of the existing line, or by the new line's price times quantity |
| Cart.OneMoreUnitTotal | blinkcart/src/app/user/cart/page.tsx:28 | one more unit of a line raises the subtotal by that line's unit price |
| Cart.SumOfUpdate | blinkcart/src/app/user/cart/page.tsx:28 | replacing one line changes the subtotal by the difference of the two line totals |
| Cart.CartSlice.constructor | blinkcart/src/redux/CartSlice.ts:20-22 | the cart starts empty |
| Cart.CartSlice.AddToCartReducer | blinkcart/src/redux/CartSlice.ts:28-37 | the stored cart becomes AddToCart of the old cart |
| Cart.CartSlice.IncrementReducer | blinkcart/src/redux/CartSlice.ts:38-43 | the stored cart becomes Increment of the old cart |
| Cart.CartSlice.DecrementReducer | blinkcart/src/redux/CartSlice.ts:45-55 | the stored cart becomes Decrement of the old cart |
| Cart.RemoveId | blinkcart/src/redux/CartSlice.ts:52 | the loop keeps exactly the lines whose id differs, in order |
| Checkout.JoinComma | blinkcart/src/app/user/checkout/page.tsx:92 | joining non-empty pieces gives the empty string exactly when there are no pieces |
| Checkout.GeocodeQuery | blinkcart/src/app/user/checkout/page.tsx:92 | the query is empty exactly when all four address fields are empty |
| Checkout.ResolveCoords | blinkcart/src/app/user/checkout/page.tsx:90-123 | finite held coordinates win; else a finite geocoder answer for a non-empty query; else a finite position fix that is not (0, 0); no coordinates exactly when all three fail |
| Checkout.ZeroFromGeocoderOnly | blinkcart/src/app/user/checkout/page.tsx:101-117 | a geocoded (0, 0) is accepted while a position fix at (0, 0) is refused |
| Checkout.IntString | blinkcart/src/app/user/checkout/page.tsx:145 | String() of an integer: its decimal digits, with a minus sign when negative |
| Checkout.IntStringInjective | blinkcart/src/app/user/checkout/page.tsx:145 | two prices print the same exactly when they are equal |
| Checkout.PayloadItem | blinkcart/src/app/user/checkout/page.tsx:142-149 | an order item keeps the line's id, name, image and quantity, prints the price, and defaults the unit to "unit" |
| Checkout.Or | blinkcart/src/app/user/checkout/page.tsx:152-155 | a truthy value, else the default |
| Checkout.ConfirmOrder | blinkcart/src/app/user/checkout/page.tsx:126-163 | alerts in order, each iff its condition: no signed-in user, a missing street address or city, an empty cart, unresolved coordinates; otherwise the payload has one item per line, the address with the Customer, Delhi and 0000000000 defaults and the coordinates as text, and the cart page's total and fee |
| Checkout.SubmittedOrderPaysFee | blinkcart/src/app/user/checkout/page.tsx:45-47 | a submitted order of priced lines carries the 40 fee and a total above 40 |
| OrderFeed.PatchWhere | blinkcart/src/components/AdminDashboard.tsx:176-182 | the list keeps its length; each order with the id becomes its patched version and every other order stays as it was |
| OrderFeed.UpsertOrder | blinkcart/src/components/AdminDashboard.tsx:152-161 | an incoming order replaces every listed order with its id, leaving the rest in place, or is put first when none has it; the list then holds it and no other version of it |
| OrderFeed.UpsertKeepsIdsUnique | blinkcart/src/components/AdminDashboard.tsx:152-161 | the upsert keeps the order ids unique |
| OrderFeed.UpsertIdempotent | blinkcart/src/components/AdminDashboard.tsx:152-161 | receiving the same order twice leaves the list as receiving it once |
| OrderFeed.PatchStatus | blinkcart/src/components/AdminDashboard.tsx:175-183 | without an orderId the list is unchanged; otherwise each order with the id takes the fields of the order sent along, if any, and the status sent, and the others are untouched |
| OrderFeed.PatchAssignment | blinkcart/src/components/AdminDashboard.tsx:198-211 | without an orderId the list is unchanged; otherwise each order with the id gets the new assignment and keeps every other field |
| OrderFeed.PushActivity | blinkcart/src/components/AdminDashboard.tsx:141-145 | the new entry comes first, followed by at most five of the earlier ones in their order |
| OrderFeed.FeedHoldsNewest | blinkcart/src/components/AdminDashboard.tsx:141-145 | after any run of events the feed holds the six newest entries, newest first |
| OrderFeed.ShortRef | blinkcart/src/components/AdminDashboard.tsx:166 | the reference is the last six characters of the id, or all of a shorter one, in upper case |
| OrderFeed.NewOrderActivity | blinkcart/src/components/AdminDashboard.tsx:162-168 | the entry's key is "new-" followed by the order id, its kind and time are the event's, and its line reads "Order #" and the short reference, at most 13 characters |
| OrderFeed.StatusActivity | blinkcart/src/components/AdminDashboard.tsx:184-190 | the key starts "status-", the kind and time are the event's, and the line starts "Order #" and the short reference and ends with the status name |
| OrderFeed.AssignedActivity | blinkcart/src/components/AdminDashboard.tsx:212-218 | the key starts "assign-", the kind and time are the event's, and the line reads "Order #" and the short reference |
| OrderFeed.ActivityKeysByKind | blinkcart/src/components/AdminDashboard.tsx:162-218 | entries of different kinds never share a key |
| OrderFeed.StatusKeyPerStatus | blinkcart/src/components/AdminDashboard.tsx:184-190 | two status entries of one order share a key exactly when they announce the same status |
| OrderFeed.OnNewOrder | blinkcart/src/components/AdminDashboard.tsx:147-168 | new-Order upserts the order and pushes a "new order" entry |
| OrderFeed.OnStatusUpdate | blinkcart/src/components/AdminDashboard.tsx:171-190 | without an orderId nothing changes; otherwise the list is patched and a "status" entry is pushed; unique ids stay unique when no order is sent along |
| OrderFeed.OnAssignmentAccepted | blinkcart/src/components/AdminDashboard.tsx:193-218 | without an orderId nothing changes; otherwise the list gets the assignment, a "delivery assigned" entry is pushed, and unique ids stay unique |
| OrderFeed.ComputeStats | blinkcart/src/components/AdminDashboard.tsx:231-246 | the cards are the order count, the revenue of the paid or cash-on-delivery orders and the status and assigned counts; the three status cards never add up to more than the orders, and revenue is never negative when no total is |
| OrderFeed.RevenueNonNegative | blinkcart/src/components/AdminDashboard.tsx:232-235 | revenue is never negative when no order's total is |
| OrderFeed.StatusCountsAddUp | blinkcart/src/components/AdminDashboard.tsx:236-238 | the six status counts add up to the number of orders that have a status |
| OrderFeed.RevenueAfterNewOrder | blinkcart/src/components/AdminDashboard.tsx:152-161 | a new order raises revenue by its total exactly when it is paid or cash on delivery |
| OrderFeed.CountAfterPatch | blinkcart/src/components/AdminDashboard.tsx:176-182 | patching the one order with an id changes any count only by what the patch did to that order |
| OrderFeed.AcceptRaisesAssigned | blinkcart/src/components/AdminDashboard.tsx:239-244 | accepting a partner for an order that had none raises the assigned card by exactly one |
| OrderFeed.RecentOrders | blinkcart/src/components/AdminDashboard.tsx:248-256 | the recent list holds six orders, or all when fewer, newest first, each drawn from the list |
| OrderFeed.RecentOrdersAreNewest | blinkcart/src/components/AdminDashboard.tsx:248-256 | no order left out of the recent list is newer than one in it |
| OrderFeed.Weekday | blinkcart/src/components/AdminDashboard.tsx:268 | the weekday of an instant is between 0 (Sunday) and 6 |
| OrderFeed.MaxOrOne | blinkcart/src/components/AdminDashboard.tsx:271 | the maximum is at least 1, no value exceeds it, and it is 1 or one of the values |
| OrderFeed.RevenueByDay | blinkcart/src/components/AdminDashboard.tsx:258-273 | there are seven buckets, Sunday first, each holding the revenue of the paid or cash-on-delivery, dated orders created on its weekday, and the maximum is taken over them |
| OrderFeed.BucketsAddUpToRevenue | blinkcart/src/components/AdminDashboard.tsx:258-273 | the buckets add up to the revenue of the dated counted orders, which is the revenue card when every counted order is dated |
| OrderFeed.StatusBreakdown | blinkcart/src/components/AdminDashboard.tsx:275-285 | the total is the number of orders but at least 1, and there is one row per status in the page's order, holding its count |
| OrderFeed.StatusPie | blinkcart/src/components/AdminDashboard.tsx:287-301 | a zero total gives the empty circle; otherwise one segment per row, each starting where the previous ended and spanning its share of 100 |
| OrderFeed.SharesSum | blinkcart/src/components/AdminDashboard.tsx:293-298 | the segments' sizes add up to 100 times the counts' sum over the total |
| OrderFeed.BreakdownCountsOrders | blinkcart/src/components/AdminDashboard.tsx:275-285 | the breakdown's counts add up to the orders that have a status |
| OrderFeed.PieEnd | blinkcart/src/components/AdminDashboard.tsx:287-301 | the last segment ends at 100 exactly when there are orders and each has a status, and never past 100 |
| ManageOrders.FilteredOrders | blinkcart/src/app/admin/managegrocery/page.tsx:170-173 | an order is shown exactly when its id or its customer's name includes the term, ignoring case, and only listed orders are shown |
| ManageOrders.EmptyTermShowsAll | blinkcart/src/app/admin/managegrocery/page.tsx:170-173 | an empty search shows the whole list |
| ManageOrders.SearchIgnoresCase | blinkcart/src/app/admin/managegrocery/page.tsx:170-173 | lowercasing the term does not change what is shown |
| ManageOrders.OwnIdFound | blinkcart/src/app/admin/managegrocery/page.tsx:170-173 | searching for an order's own id finds it |
| ManageOrders.OnNewOrder | blinkcart/src/app/admin/managegrocery/page.tsx:178-194 | new-Order upserts the order into the list and leaves the open order alone |
| ManageOrders.OnStatusUpdate | blinkcart/src/app/admin/managegrocery/page.tsx:196-214 | without an orderId nothing changes; otherwise the list is patched, and the open order is patched exactly when it has the id |
| ManageOrders.OnAssignmentAccepted | blinkcart/src/app/admin/managegrocery/page.tsx:216-240 | without an orderId nothing changes; otherwise the list and, exactly when it has the id, the open order get the assignment |
| ManageOrders.StatusUpdateKeepsInSync | blinkcart/src/app/admin/managegrocery/page.tsx:196-214 | a status event keeps the open order equal to the listed order with its id |
| ManageOrders.AssignmentKeepsInSync | blinkcart/src/app/admin/managegrocery/page.tsx:216-240 | an assignment event keeps the open order equal to the listed order with its id |
| ManageOrders.StatusSavedAsWritten | blinkcart/src/app/admin/managegrocery/page.tsx:137-166 | a failed POST changes nothing; a saved status patches the listed order with the id and the open order whatever its id |
| ManageOrders.StaleSelectionOverwritten | blinkcart/src/app/admin/managegrocery/page.tsx:151-153 | with order "b" open while "a" is saved, the panel shows the new status for "b" and no longer agrees with the list |
| ManageOrders.StatusSaved | blinkcart/src/app/admin/managegrocery/page.tsx:137-166 | a failed POST changes nothing; a saved status patches the listed order with the id and the open order only when it is that order |
| ManageOrders.StatusSavedKeepsInSync | blinkcart/src/app/admin/managegrocery/page.tsx:137-166 | saving a status keeps the open order equal to the listed order with its id |
| Delivered.Normalise | blinkcart/src/app/delivery/delivered/page.tsx:28-30 | an array body is the list, an object's assignments field is the list, and anything else gives the empty list |
| Delivered.AfterFetch | blinkcart/src/app/delivery/delivered/page.tsx:24-39 | a failed request keeps the previous list; otherwise the list is the normalised body |
| Delivered.TotalEarnings | blinkcart/src/app/delivery/delivered/page.tsx:41-44 | the payout is never negative when no fee is, and is 0 when no item has an order with a fee |
| Delivered.EarningsAdd | blinkcart/src/app/delivery/delivered/page.tsx:41-44 | the payout of two lists together is the sum of their payouts |
| Delivered.Filtered | blinkcart/src/app/delivery/delivered/page.tsx:46-52 | an item is shown exactly when it has an order whose id or customer name includes the term, ignoring case, and only listed items are shown |
| Delivered.EmptyTermShowsOrders | blinkcart/src/app/delivery/delivered/page.tsx:46-52 | an empty search shows every item whose order has an id or a name |
| Delivered.View | blinkcart/src/app/delivery/delivered/page.tsx:41-52 | the count and the payout cover the whole list, not the search, so they are never less than what the shown cards hold |
| Delivered.FilteredEarnLess | blinkcart/src/app/delivery/delivered/page.tsx:41-52 | leaving items out never raises the payout when no fee is negative |
| GroceryViews.Query | blinkcart/src/app/admin/view-grocery/page.tsx:67 | the query is empty exactly when the search is all white space, and is never longer than the search |
| GroceryViews.Filtered | blinkcart/src/app/admin/view-grocery/page.tsx:66-74 | a blank search shows every item; otherwise an item is shown exactly when its name or category includes the query, ignoring case, and only listed items are shown |
| GroceryViews.BlankSearchShowsAll | blinkcart/src/app/admin/view-grocery/page.tsx:68 | a search of white space only shows every item |
| GroceryViews.SearchIgnoresCase | blinkcart/src/app/admin/view-grocery/page.tsx:66-74 | lowercasing what is typed does not change what is shown |
| GroceryViews.QueryIgnoresCase | blinkcart/src/app/admin/view-grocery/page.tsx:67 | the query of the lowercased search is the query of the search |
| GroceryViews.DashboardQuery | blinkcart/src/components/UserDashboard.tsx:23 | a missing search gives the empty query, and a given one the catalogue page's query |
| GroceryViews.DashboardFiltered | blinkcart/src/components/UserDashboard.tsx:24-28 | the dashboard shows what the catalogue page shows for the same search, and everything without one |
| GroceryViews.FirstMatchId | blinkcart/src/components/UserDashboard.tsx:29 | the id of the first item that matches a non-empty query, and "" when there is no query or no match |
| GroceryViews.SaveEdit | blinkcart/src/app/admin/view-grocery/page.tsx:84-109 | nothing changes without an edited item with an id or when the request fails; otherwise the saved item replaces every item with the edited id and the form closes |
| GroceryViews.SaveKeepsIdsUnique | blinkcart/src/app/admin/view-grocery/page.tsx:99-101 | saving keeps ids unique when the server answers with the edited id |
| GroceryViews.SaveReplacesOne | blinkcart/src/app/admin/view-grocery/page.tsx:99-101 | with unique ids the saved item takes the edited one's place and every other item stays where it was |
| GroceryViews.DeleteItem | blinkcart/src/app/admin/view-grocery/page.tsx:111-125 | an empty id, a declined confirmation or a failed request change nothing; otherwise no item with the id is left and every other item stays |
| GroceryViews.DeleteRemovesOne | blinkcart/src/app/admin/view-grocery/page.tsx:113-118 | with unique ids a delete removes exactly the one item and keeps the order of the rest |
| Hero.NextIndex | blinkcart/src/components/Herosection.tsx:49 | from a slide the next index is a slide, one on, wrapping from the last to the first |
| Hero.PrevIndex | blinkcart/src/components/Herosection.tsx:50 | from a slide the previous index is a slide, one back, wrapping from the first to the last |
| Hero.ArrowsUndo | blinkcart/src/components/Herosection.tsx:49-50 | the two arrows undo each other |
| Hero.TicksWrap | blinkcart/src/components/Herosection.tsx:42-50 | n timer ticks move the index n slides on, modulo the four slides |
| Hero.Carousel.constructor | blinkcart/src/components/Herosection.tsx:40 | the carousel starts on the first slide |
| Hero.Carousel.Next | blinkcart/src/components/Herosection.tsx:42-49 | the timer and the next arrow move to the next index and keep it a slide |
| Hero.Carousel.Prev | blinkcart/src/components/Herosection.tsx:50 | the previous arrow moves to the previous index and keeps it a slide |
| Hero.Carousel.Select | blinkcart/src/components/Herosection.tsx:136-139 | an indicator dot sets the index to its own slide |

## Left out

- Concurrency: requests and socket handlers run one at a time. The read-then-write races between the steps of the verify route are not modelled.
- SHA-256, bcrypt, `Math.random()`, `Date.now()`, nodemailer, the Groq language model call and its prompt text, Stripe, Cloudinary and NextAuth sign-in are outside the model. They appear only as the parameters named above.
- The accept, reject and dispatch handlers for assignments, and the delivery assignment schema, are not part of this model. The assignment store is an abstract list with the three statuses.
- The chat routes read `order.assignment`, which the Order schema does not declare. The model takes the order as the routes resolve it: its customer and its assigned partner.
- The chat room route (`/api/chat/room/[orderid]`) is not part of this model.
- A missing base URL for the relay's `/notify` call is not modelled. Every notify call is a value the route returns.
- `ObjectId.isValid` is taken as 24 hexadecimal digits. Older bson versions also accept any 12-character string.
- An OTP sent as a JSON number rather than a string is not modelled. The code always arrives as text.
- Mongoose's CastError for a malformed id in a query is not modelled.
- Unexpected errors (a failing database, a throwing `auth()`) answer 500 through each route's catch. Only the current-order, completed-assignments and my-orders routes carry them, as `dbFails`.
- The other routes model only the 500s they raise on purpose or that follow from the schema. These catches are not modelled: verify (verify/route.ts:76-81), request apart from a refused mail (request/route.ts:87-92), update-location apart from the index refusal (updatelocation/route.ts:36-42), connect (connect/route.ts:36-42), chat message (message/route.ts:117-122), register (register/route.ts:37-44) and place order (order/route.ts:40-45).
- The suggestion route's catch (suggestions/route.ts:129-134) is not modelled either: a Groq fetch or `resp.json()` that throws. The reply is a parameter.
- Presence.UpdateLocation: MongoDB's GeoJSON checks beyond the point's type and the range of its two coordinates are not modelled.
- SocketServer.RelayLocation: what the login page answers to the relay's redirected post is the parameter `redirectOk`.
- The proxy's matcher reads `favicon.ico` with a regular-expression dot. Access.Matched compares the text literally.
- JavaScript string lengths count UTF-16 code units. The model counts characters.
- Case mapping covers ASCII letters only. Other scripts keep their case.
- Prices are integers. `Number()` parsing of price strings and floating-point rounding are not modelled.
- Checkout prints coordinates through the `show` parameter rather than JavaScript's number formatting.
- `getBestPosition`'s accuracy ranking over several position fixes is not modelled. The position fix is one input. The checkout page's `setCoords` state update is not modelled either.
- The haversine distance on the partner dashboard is not modelled.
- `deliveryFee` is read by the history page but is not a field of the Order schema. The model keeps it optional.
- Chat messages are taken in store order rather than sorted by `createdAt`.
- `getDay()` uses the browser's local time zone. The model uses UTC.
- Invalid date strings, which give NaN times, are not modelled. An order's date is present or absent.
- OrderFeed.StatusPie: the gradient's colours and text, and floating-point rounding, are left out. Segment bounds are exact reals.
- ManageOrders.StatusSaved: the list of available delivery partners that the status POST returns is not modelled.
- OrderFeed.PatchStatus: the spread `{...o, ...payload.order}` is modelled as the sent order replacing the listed one. A partial sent order would keep the fields it lacks.
- Hero.Carousel.Next: restarting the five-second timer after each change is not modelled. Each tick is one call.
- Chat.PostMessage: it relays as the route is written, so it no longer promises that no delivery goes to every socket. That promise is made by Chat.PostMessageCorrected.
- Cart.LineTotal: the product of price and quantity is stated only for no unit and one unit. The general case is carried by Cart.OneMoreUnitTotal and Cart.AddToCartTotal.
- The mail subject and body, and every user-interface detail, are not modelled.
- Thin CRUD routes, schema-only files, the socket client, the geolocation watchers and the pure display components are not part of this model.

## Findings

| source | as written | input that shows it | evidently intended | confidence | as-written member | corrected member |
|---|---|---|---|---|---|---|
| blinkcart/src/app/api/chat/message/route.ts:105-114 | each participant's socket id is sent to `/notify` as the socket id or else null, and the relay broadcasts any event whose socket id is null | an order whose customer or partner has no socket id: the message reaches every connected socket | notify only the participants that have a socket, and skip the one without | not executed | Chat.FanOutAsWritten, Chat.BroadcastWhenSocketMissing, Chat.PostBroadcastsWhenSocketMissing | Chat.FanOut, Chat.PostMessageCorrected |
| blinkcart/src/app/admin/managegrocery/page.tsx:151-153 | after a successful status POST, the open order gets the new status whatever its id | order "b" open while the status of "a" is saved: the panel shows the new status for "b", and the list does not | patch the open order only when it is the saved one, as the socket handlers do | not executed | ManageOrders.StatusSavedAsWritten, ManageOrders.StaleSelectionOverwritten | ManageOrders.StatusSaved, ManageOrders.StatusSavedKeepsInSync |
| blinkcart/src/proxy.ts:13-19 | the matcher selects every path but the Stripe webhook and static files, and the proxy redirects a request without a session token to the login page | any identity, disconnect or location event: the relay posts to /api/socket/connect or /api/socket/updatelocation without a cookie, the post is redirected, and no user's socket id, presence or location is ever written | let the relay's two routes through the gate, as the Stripe webhook is | not executed | SocketServer.RelayPostsRedirected, SocketServer.RelayWritesNothing | Access.GateCorrected, SocketServer.ForwardedFixStoredIffValid, SocketServer.IdentityThenDisconnect |
