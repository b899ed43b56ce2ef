# Tinia, modelled and proved in Dafny

Tinia lets a web browser steer a program on a server. Five parts of it are modelled here.

- **The message protocol** (`src/ipc`). Apache workers (clients) and one job (the server) exchange messages of several
  parts through one buffer in shared memory, under two mutexes, three condition variables, two event predicates and a
  phase. `IpcProtocol.dfy` is the protocol as steps of any number of clients, one server thread, any number of threads
  that notify, and the thread that ends the main loop. A step is the code between two lock operations, waits or
  callbacks, since the header is only touched with the operation lock held. A condition wait gives up its lock at once
  and needs a wake-up and the lock to come back; wake-ups may be spurious, any timed wait may time out, any callback may
  fail, notify, or end the main loop. `IpcInvariant.dfy` proves one invariant for every run; `IpcTheorems.dfy` draws
  delivery, notification, wake-up and shutdown from it, `IpcAnswers.dfy` proves what a call returns, `IpcDeadlock.dfy`
  the lock order, and `IpcLostNotification.dfy` shows a notification that is lost. `IpcFaultFree.dfy` and `IpcTermination.dfy` are about runs without faults: the
  synchrony checks never fire, exactly one side may go on, a transaction has an exact cost and ends. `IpcRecovery.dfy`
  proves that whatever faults came before, every client can be served again as long as the main loop runs.
  `IpcMessages.dfy` holds the loops that cut messages into parts, and `IpcEndToEnd.dfy` joins them to the protocol:
  whatever bytes a call is given arrive. (The job's own producer, `src/trell/IPCController.cpp:214-234`, cuts its reply as the buffered client
  cuts its query.)
- **The trackball camera** (`js/shared/DSRV.js` over `js/shared/gl-matrix.js`), over the reals. `GlMatrix.dfy` has the
  vectors, quaternions and matrices and what rotations do; `Camera.dfy` what modelview and projection do to a point;
  `Trackball.dfy` the manipulator, a class whose methods change its fields. The square root and the tangent of half the
  field of view are parameters of which only their defining property is assumed.
- **The PNG encoder and its CRC** (`src/mod_trell/pass_reply_png.c`). `Crc.dfy` proves the loop over the table against
  the bit by bit definition of RFC 2083, sections 3.4 and 15, and that every burst of damage within four bytes is seen.
  Words are numbers with an exclusive or of their own; `MachineWords.dfy` proves that this is what the machine's
  operators do to 32 bits, and with it the loop of the C code and the CRC of the last chunk. `Png.dfy` has the encoder,
  the file byte by byte, a reader of chunks (section 3.2), a decoder, and the round trip. zlib is a pair of functions, one undoing the other.
- **The replication sender** (`js/model/ExposedModelSender.js`), in `Sender.dfy`: the model, the sender and the post
  that is on its way as one class, with a record kept beside it of what really was changed and of every completion.
- **The query string**, in `QueryString.dfy`: printed by `js/model/URLHandler.js`, read by
  `src/mod_trell/mod_trell_url_decode.c`.

Where the code does less than one would hope, the model follows the code and the exact condition is proved:

- The main loop joins its signal thread while it holds the operation lock. A second signal that arrives before the join
  makes the two wait for each other until the timed lock of the signal thread gives up. Threads wait in a circle exactly
  then (`WaitCycleIffJoinMeetsBreak`), and the state is reachable (`JoinCanMeetBreak`).
- The header file lets any thread notify, the main-loop thread included (`include/tinia/ipc/ipc_msg.h:96-98`), and says
  that the detour of the other threads is there so that no client misses a notification between its reply and its wait
  (lines 416-420). The main-loop thread broadcasts without that detour. While it handles a message of a client, which
  the header file calls the usual case, nobody can miss it; from the periodic function it is missed exactly by the
  clients between reply and wait (`InTimeIff`, `OwnNotificationLostIff`), and that can happen (`NotificationCanBeLost`).
- A long poll that times out returns -1 although its reply was delivered whole, and a call that was never asked to
  long-poll returns 0 although its consumer asked to wait (`AnswerIff`).
- A break from a callback does not wait for the end of the transaction under way; that transaction is still served, and
  no other (`BreakHappensBetweenTransactions`, `BreakIsFinal`).
- With a POST body the header is only sent as far as it fits the parts the body takes: header and body arrive whole if
  and only if the header is no longer than that many buffers and no read brought more than was asked for (`SendPost`);
  a header longer than the buffer before an empty body is cut off (`HeaderIsCutOff`).
- `viewAll` centres the box so that all of it is inside the four sides of the view, but the near plane cuts off
  exactly the points nearer than a hundredth of the far plane (`DepthOfView`), such as the near end of a thin rod that
  points at the camera (`RodIsCut`).
- The sender takes down a local change exactly when the listeners are told, no update is being parsed and the key is not
  empty (`ChangeLocally`). A list is compared by identity: one that was changed in place and handed back is never posted
  (`OwnListIsMissed`), while a composite is (`OwnCompositeIsPosted`). A schema or a layout that cannot be parsed, or an
  element that names an unknown key or is a list without text, ends the parsing of a server update on the spot, and the
  sender stays deaf (`TakeServerUpdate`, `BadUpdateDeafens`). Completions are right for all changes taken down, and no
  server update overwrites these (`Run`).
- A translation drag unprojects the mouse with its horizontal place scaled by the aspect. So the picked point follows
  the mouse if and only if the aspect is 1 or the mouse is in the middle (`DraggedFollows`); elsewhere it runs ahead, and
  in a wide window it leaves the view before the mouse does (`PickedLeavesView`).
- The URL handler appends its parameters even after a fragment, where the server does not see them (`FragmentHides`).

## Model

| member | source | states |
|---|---|---|
| IpcInvariant.StepKeeps | src/ipc/ipc_msg_server.c:902-1134 | every step of every thread, and every call of the main-loop thread from a callback, keeps lock ownership, the two sides in step, intact delivery, no oversleeping, and that nobody knows a revision the model has not had |
| IpcInvariant.RunKeeps | src/ipc/ipc_msg_internal.h:34-160 | so does every run, under every interleaving and every rule on the actions |
| IpcInvariant.ClientStepMoves | src/ipc/ipc_msg_client.c:260-613 | every step of a client, at each place of a transaction, keeps the two sides in step and the parts intact, and touches nothing but what is listed |
| IpcInvariant.ServerStepMoves | src/ipc/ipc_msg_server.c:439-633 | the same for every step of the server except a broadcast and the clearing of the flag, which have their own lemmas |
| IpcInvariant.ServerClearsFlag | src/ipc/ipc_msg_server.c:943-1012 | clearing the deferred flag without its lock loses no notification, because the transaction lock is held |
| IpcInvariant.StepKeepsNotifications | src/ipc/ipc_msg_server.c:663-760 | whoever needs to hear of a newer model has a notification coming, and every step keeps it so, if the main-loop thread itself notifies only in time |
| IpcTheorems.EveryExchangeIsIntact | src/ipc/ipc_msg_client.c:514-560 | in every run, with any timeouts and failures: what a consumer got is a prefix of what was produced in the same transaction, in order; the reply begins only after the whole query was consumed; and a transaction whose client took the last part delivered both messages whole |
| IpcTheorems.ServerConsumesOneClientsParts | src/ipc/ipc_msg_server.c:461-537 | when the server's consumer is called for a part, the buffer holds that part of the query of the client now inside, and the consumer has had exactly that client's earlier parts |
| IpcTheorems.ClientConsumesItsOwnReply | src/ipc/ipc_msg_client.c:346-412 | a client only ever consumes, part by part, the reply to its own query |
| IpcTheorems.PartCountersAgree | src/ipc/ipc_msg_server.c:464-484 | even after faults, whoever passes the phase check passes the part check |
| IpcTheorems.TransactionsStartFresh | src/ipc/ipc_msg_server.c:920-930 | a transaction starts only from the ready phase, and only a fresh iteration of a running main loop makes the phase ready |
| IpcTheorems.NoLostNotification | src/ipc/ipc_msg_server.c:692-760 | a client that long-polls on a reply older than the model has a notification coming: a worker on its way, the flag set, or the server about to broadcast; in every run in which the main-loop thread itself notifies only in time |
| IpcTheorems.InTimeIff | src/ipc/ipc_msg_server.c:699-714 | the main-loop thread is in time whenever it handles a message of a client, never while it sends a reply, and in the periodic function if and only if no client is between its reply and its wait |
| IpcTheorems.OwnNotificationLostIff | src/ipc/ipc_msg_server.c:699-714 | its notification is lost if and only if none is pending and it notifies while sending a reply, or from the periodic function while a client is between reply and wait |
| IpcLostNotification.NotificationCanBeLost | src/ipc/ipc_msg_client.c:552-577 | a run after which a client sleeps on a model that has moved on, with no notification on its way |
| IpcTheorems.QuiescentClientsAreUpToDate | src/ipc/ipc_msg_client.c:562-601 | when all workers are done and the flag is clear, every long-polling client has the newest revision |
| IpcTheorems.LockedBroadcastReachesAll | src/ipc/ipc_msg_server.c:943-1012 | a broadcast made under the transaction lock wakes every long-polling client |
| IpcTheorems.DeferredIsDelivered | src/ipc/ipc_msg_server.c:943-1012 | the server on its own delivers a deferred notification in the next turn of its idle loop: it wakes every client in the wait and clears the flag, exactly if nobody holds the transaction lock; otherwise it stays deferred |
| IpcTheorems.SleepersWaitForSomething | src/ipc/ipc_msg_client.c:227-257 | no wake-up is lost: whoever sleeps waits for something that has not happened |
| IpcTheorems.ErrorsAreTold | src/ipc/ipc_msg_client.c:289-318 | whoever declares an error raises the event of the other side and wakes it, but for an event that the idle server finds without a query |
| IpcTheorems.ClientEventHasOneWaiter | src/ipc/ipc_msg_server.c:389-405 | only one thread at a time waits on the client event, so signalling one is enough |
| IpcTheorems.BreakHappensBetweenTransactions | src/ipc/ipc_msg_server.c:762-848 | another thread clears the running flag only while no client is in a transaction and nothing is on its way; the main-loop thread does so from a callback and changes nothing else, between transactions exactly if it is the periodic one |
| IpcTheorems.BreakIsFinal | src/ipc/ipc_msg_server.c:1202-1210 | after a break, in every continuation, consumer and producer of the server are called again only for the transaction in which a callback made the break |
| IpcAnswers.AnswerIff | src/ipc/ipc_msg_client.c:447-613 | in every reachable state: a call has returned 0 if and only if it went through a transaction, its own and the last it began, whose whole reply it took and whose consumer, if the call long-polls, asked for no notification; -2 only if it could begin none since it entered or was last woken; and -1 otherwise |
| IpcAnswers.AnswerOnItsWay | src/ipc/ipc_msg_client.c:328-417 | the receive loop hands back 0 or more if and only if the reply is complete, and more than 0 only if the consumer asked to wait; who waits for a notification has its whole reply, asked to wait and was called to long-poll |
| IpcAnswers.CallGetsItsAnswer | src/ipc/ipc_msg_client.c:447-613 | from the call to its answer, in every run: it returns 0 if and only if it went through a transaction that began after the call, whose whole reply it took, and, if it was called to long-poll, left nothing to wait for; it waits for a notification only if it was called to long-poll |
| IpcAnswers.PatientCallsSucceed | src/ipc/ipc_msg_client.c:476-601 | in every run without faults, a call that does not itself time out returns 0, however often it is woken and asks again; a woken long-poller never returns for having been woken |
| IpcDeadlock.LockRules | src/ipc/ipc_msg_internal.h:60-110 | a client holds the operation lock only inside the transaction lock; the server never holds both; threads outside their calls hold nothing |
| IpcDeadlock.WaitCycleIffJoinMeetsBreak | src/ipc/ipc_msg_server.c:1210-1228 | threads wait in a circle exactly when the main loop, joining with the operation lock held, meets a second break that wants this lock, or the transaction lock of a client that wants it |
| IpcDeadlock.NoDeadlockWhileServing | src/ipc/ipc_msg_server.c:946-1012 | while the main loop serves, nobody waits in a circle |
| IpcDeadlock.TimeoutEndsTheCycle | src/ipc/ipc_msg_server.c:796-842 | the timed lock of the breaking thread ends the circle |
| IpcDeadlock.JoinCanMeetBreak | src/ipc/ipc_msg_server.c:852-900 | the circle can be reached: two signals, the second before the join |
| IpcFaultFree.SynchronyChecksPass | src/ipc/ipc_msg_client.c:289-298 | in fault-free runs every phase and part check before a callback succeeds |
| IpcFaultFree.ExactlyOneSideMayGo | src/ipc/ipc_msg_server.c:1116-1131 | inside a transaction, whenever the operation lock is free, exactly one side has its wake condition, is awake and can step |
| IpcFaultFree.WorkCountsParts | src/ipc/ipc_msg_server.c:562-631 | parts handled by the callbacks and parts recorded in the transaction grow together over every run |
| IpcFaultFree.TransactionCost | src/ipc/ipc_msg_client.c:279-325 | a complete transaction produced and consumed every part once and nothing else |
| IpcTermination.MeasureFalls | src/ipc/ipc_msg_client.c:279-412 | every fault-free step keeps the transaction going, and every advance of either side lowers a measure, until query and reply have exactly the planned numbers of parts |
| IpcTermination.StartIsUnderWay | src/ipc/ipc_msg_client.c:530-551 | the step that starts a transaction in a fault-free run leads to where the measure applies, for any numbers of parts n and m, at most at 32 * (n + m) + 13 |
| IpcTermination.EveryTransactionEnds | src/ipc/ipc_msg_server.c:902-1134 | in every fault-free run from there, whatever the other threads do, the transaction is complete with n and m parts before the two sides have advanced more often than that |
| IpcTermination.CanAlwaysFinish | src/ipc/ipc_msg_server.c:902-1134 | from every point of a fault-free transaction there is a run that completes it |
| IpcRecovery.RecoversIff | src/ipc/ipc_msg_server.c:1201-1212 | in every reachable state after the start of the main loop, whatever timeouts, failures and breaks came before: any client can still complete a new transaction, with any numbers of parts, if and only if the main loop runs and the signal thread is not just about to end it |
| IpcRecovery.ServerSettles | src/ipc/ipc_msg_server.c:902-1134 | from any point of the main loop the server on its own falls asleep in its idle loop, once callbacks under way fail and waits time out |
| IpcRecovery.ClientLeaves | src/ipc/ipc_msg_client.c:486-612 | from any point inside, a client that has the operation lock or can have it leaves with both locks free |
| IpcRecovery.MainLoopEndsIff | src/ipc/ipc_msg_server.c:1196-1205 | a step ends the main loop if and only if it is a break, of the signal thread or from a callback, a failure of the periodic function, or a fatal failure of a handler of a first part |
| IpcMessages.ChunksRebuild | src/ipc/ipc_msg_client.c:626-652 | joining the parts gives the message back; there are max(1, n / size rounded up) of them |
| IpcMessages.ChunksFit | src/ipc/ipc_msg_client.c:626-652 | no part exceeds the buffer and all but the last fill it |
| IpcMessages.BufferedCall.Produce | src/ipc/ipc_msg_client.c:626-652 | each call sends the next chunk of the query, part 0 starts afresh, `more` exactly if something is left; asked for the parts in turn, part p is chunk p |
| IpcMessages.BufferedCall.Consume | src/ipc/ipc_msg_client.c:654-675 | a part is appended to the reply exactly if it fits, part 0 starts afresh |
| IpcMessages.SendAll | src/ipc/ipc_msg_client.c:279-325 | the part loop sends the chunks of the query, once each and in order |
| IpcMessages.ReceiveAll | src/ipc/ipc_msg_client.c:346-412 | the receive loop delivers the joined parts exactly if they fit the reply buffer, and fails otherwise |
| IpcMessages.PostProducer.Produce | src/mod_trell/pass_query.c:31-115 | header first, then what one read of the body brings, within the buffer; error on abort or a failed read; `more` exactly until end of stream |
| IpcMessages.SendPost | src/mod_trell/pass_query.c:39-114 | for any answers of the input filters: parts fit the buffer, end at end of stream, and join to the header that went through and the body that was taken; that is the whole of both if and only if the header fits as many buffers as there are parts and no read was cut off |
| IpcMessages.HeaderAndBodyComplete | src/mod_trell/pass_query.c:55-75 | the same condition for what the parts carry; the header fits for sure if it fits the first buffer |
| IpcMessages.HeaderIsCutOff | src/mod_trell/pass_query.c:55-75 | for every header longer than the buffer, before an empty body the request succeeds in one part that holds only the front of the header |
| IpcMessages.SendHeader | src/mod_trell/pass_query.c:39-75 | without a body the header may span any number of parts, and a rerun from part 0 sends all of it |
| IpcEndToEnd.CompletedCallDelivers | src/ipc/ipc_msg_client.c:678-705 | in any run from the beginning of a transaction, with any timeouts, failures and breaks, if the producers cut query and reply as the buffered call does: when the client has taken the last part the server got exactly the query and the client exactly the reply, for all byte strings and buffer sizes |
| IpcEndToEnd.AnsweredCallDelivers | src/ipc/ipc_msg_client.c:678-705 | if a call whose last transaction that was returns 0, then, whatever happened meanwhile and since, the server got exactly the query and the client exactly the reply |
| IpcEndToEnd.CallCost | src/ipc/ipc_msg_client.c:279-325 | in a fault-free run such a call takes exactly two callbacks for each buffer that query and reply fill |
| IpcEndToEnd.EveryCallDelivers | src/ipc/ipc_msg_client.c:678-705 | every such call that begins in a fault-free run is over, with query and reply delivered at that cost, before client and server have advanced more than 13 times and 32 times for each part |
| GlMatrix.NormMultiplies | js/shared/gl-matrix.js:2204-2217 | the norm of a product of quaternions is the product of the norms |
| GlMatrix.RotateComposes | js/shared/gl-matrix.js:2227-2245 | rotating by a product is rotating by its factors in turn |
| GlMatrix.MatrixAgreesWithQuaternion | js/shared/gl-matrix.js:1884-1921 | the matrix of a unit quaternion moves points as the quaternion does |
| GlMatrix.RotateKeepsLength | js/shared/gl-matrix.js:2227-2245 | a unit quaternion keeps lengths |
| GlMatrix.RotationToCarries | js/shared/gl-matrix.js:511-539 | for unit vectors the result is a unit quaternion that carries the first exactly to the second, except within a millionth of opposite, where it carries it to its opposite |
| GlMatrix.TurnAxisIsGood | js/shared/gl-matrix.js:518-525 | the axis chosen for opposite vectors is a unit vector at right angles |
| Camera.ModelviewPlaces | js/shared/DSRV.js:97-105 | the modelview turns a point about the centre of interest and sets it back by the distance |
| Camera.FramedIff | js/shared/gl-matrix.js:1698-1720 | a projected point satisfies the side clipping planes exactly if it lies in the pyramid of the view |
| Camera.DepthIff | js/shared/gl-matrix.js:1698-1720 | the depth clipping planes lie exactly at near and far |
| Camera.ReachIsEnough | js/shared/DSRV.js:80-95 | a camera set back by a point's reach has it in view, for every aspect above zero |
| Camera.FramesWholeBox | js/shared/DSRV.js:86-94 | a view that has the eight points the loop visits inside its sides has every point of the box there |
| Camera.ReachIsTight | js/shared/DSRV.js:80-95 | in a square window the point that sets the distance lies on the border |
| Trackball.FarthestReach | js/shared/DSRV.js:83-94 | starting the maximum from zero is harmless, because one of two opposite corners reaches back at least to the centre |
| Trackball.TrackBallManipulator.constructor | js/shared/DSRV.js:18-49 | a new manipulator has the first box in view |
| Trackball.TrackBallManipulator.ViewAll | js/shared/DSRV.js:73-96 | for any box, aspect above zero and unit orientation every point of the box is inside the sides of the view, in clip space; in a square window one is on the border |
| Trackball.TrackBallManipulator.UpdateMatrices | js/shared/DSRV.js:97-142 | the matrices are those of orientation, centre and distance, with the planes of the deepest and nearest corner |
| Trackball.TrackBallManipulator.PlanesIff | js/shared/DSRV.js:124-127 | for every point of the scene: the far plane lies a thousandth beyond the deepest point of the box, but in front of the camera; the near plane a thousandth before the nearest, but at a hundredth of the far plane if that is farther |
| Trackball.TrackBallManipulator.NothingIsStretched | js/shared/DSRV.js:128-142 | every point of the scene shows as many pixels to the right for its way to the right as upwards for its way upwards, and the shorter side of the window spans the field of view |
| Trackball.TrackBallManipulator.DepthOfView | js/shared/DSRV.js:124-127 | the far plane clips no point of the box; the near plane clips exactly the points of it that are nearer than a hundredth of the far plane |
| Trackball.TrackBallManipulator.RodIsCut | js/shared/DSRV.js:124-127 | of a rod that points at the camera, seen as `viewAll` leaves it, the near end is cut exactly if the rod is thin for its length |
| Trackball.TrackBallManipulator.SetWindowSize | js/shared/DSRV.js:52-64 | reacts exactly to a new size without a zero |
| Trackball.TrackBallManipulator.PointOnUnitSphere | js/shared/DSRV.js:245-258 | a unit vector in pixels of the window, right and up of its middle: straight over the mouse, or the nearest point of the rim |
| Trackball.TrackBallManipulator.UnderMouseSides | js/shared/DSRV.js:247-256 | a mouse above the middle of the window points upwards, one to the right of it to the right |
| Trackball.TrackBallManipulator.MouseDrag | js/shared/DSRV.js:198-237 | a rotation drag carries the pressed point exactly to the one over the mouse, and with it whatever lay under it; a translation drag moves the centre so that the picked point shows, in pixels, where `_normalizedPos` has the mouse, which is under the mouse if and only if the aspect is 1 or the mouse in the middle; a dolly drag sets the distance by the pixels the mouse has gone up since the press; nothing else changes |
| Trackball.TrackBallManipulator.UpIsAway | js/shared/DSRV.js:229-235 | a dolly drag upwards sets the camera farther back, and one back to where it was pressed as far as before |
| Trackball.TrackBallManipulator.SetStateTranslation | js/shared/DSRV.js:157-188 | the press picks the point that the inverse of projection and modelview gives at the depth of the centre of interest; it shows, in pixels, where `_normalizedPos` has the mouse, at that depth |
| Trackball.TrackBallManipulator.PickedIff | js/shared/DSRV.js:169-187 | of all points at the depth of the centre of interest exactly the picked one shows at that place |
| Trackball.TrackBallManipulator.DraggedFollows | js/shared/DSRV.js:213-227 | after any drag since the press the picked point shows where `_normalizedPos` has the mouse; under the mouse if and only if the aspect is 1 or the mouse in the middle |
| Trackball.TrackBallManipulator.PickedLeavesView | js/shared/DSRV.js:238-243 | in a window wider than high the point that is dragged to the right edge has left the view |
| Trackball.TrackBallManipulator.HandleButton | js/shared/DSRV.js:292-309 | each button begins its kind of drag, with what was pressed and the camera as it is; the release ends it |
| Camera.UnprojectIff | js/shared/gl-matrix.js:1698-1720 | for every projection and modelview of the camera exactly one point shows at a given place at the depth of the centre, given in closed form |
| GlMatrix.RotateBack | js/shared/gl-matrix.js:2227-2245 | a unit quaternion and its conjugate undo each other |
| Trackball.TrackBallManipulator.Handle | js/shared/DSRV.js:292-330 | over every sequence of window and mouse events the orientation stays a unit quaternion, the matrices those of the camera, and the mouse drags what the last press or release says |
| Crc.MakeTable | src/mod_trell/mod_trell.c:341-355 | entry k is k shifted eight times |
| Crc.PngCrc | src/mod_trell/pass_reply_png.c:34-45 | the loop over the table computes the bitwise CRC of the bytes |
| Crc.TableStep | src/mod_trell/pass_reply_png.c:39-43 | one look-up does to the register what feeding the eight bits of the byte does |
| Crc.FeedIsShift | src/mod_trell/mod_trell.c:341-355 | feeding bits one by one is shifting what they are added to |
| Crc.BurstsAreSeen | src/mod_trell/pass_reply_png.c:34-45 | two byte strings that differ only within four consecutive bytes have different CRCs |
| MachineWords.NumOfXor | src/mod_trell/mod_trell.c:346-351 | the arithmetic exclusive or is `^` on 32 bits |
| MachineWords.NumOfShifted | src/mod_trell/mod_trell.c:346-351 | the arithmetic shift of the table is the shift of the C code, on 32 bits |
| MachineWords.NumOfParts | src/mod_trell/pass_reply_png.c:39-43 | `>> 8` and `& 0xff` are division by 256 and its remainder |
| MachineWords.PngCrcOnWords | src/mod_trell/pass_reply_png.c:34-45 | the loop with the operators of the C code computes the same CRC |
| MachineWords.CrcOfIend | src/mod_trell/pass_reply_png.c:148-160 | the CRC of the last chunk is 174 66 96 130 |
| Png.ReadUndoesWrite | src/mod_trell/pass_reply_png.c:90-160 | a reader of chunks gives back any list of chunks that was written, for any check of four bytes |
| Png.DamageIsRefused | src/mod_trell/pass_reply_png.c:142-147 | a chunk whose type or data was damaged within four consecutive bytes is refused, the sound one accepted |
| Png.UnfilteredUndoes | src/mod_trell/pass_reply_png.c:63-70 | taking the filter bytes away gives the rows, the last row of the buffer first |
| Png.TopDownIsRows | src/mod_trell/pass_reply_png.c:63-70 | row j from the top is row height - 1 - j of the buffer |
| Png.FilterImage | src/mod_trell/pass_reply_png.c:63-70 | the loop writes exactly the filtered and flipped rows |
| Png.Encode | src/mod_trell/pass_reply_png.c:50-164 | success exactly if the compression succeeds; then the destination holds exactly the file, else nothing is announced; what stands before is untouched |
| Png.FileSize | src/mod_trell/pass_reply_png.c:72-164 | the file has 8 + 25 + 12 + compressed + 12 bytes |
| Png.FileLayout | src/mod_trell/pass_reply_png.c:78-160 | the file byte by byte: signature, length, type, data and check of the three chunks, width and height highest byte first, eight bits, three colours, no interlace |
| Png.RoundTrip | src/mod_trell/pass_reply_png.c:50-164 | for every width, height and buffer, decoding the file gives the same header and all pixels back |
| Sender.Replica.ChangeLocally | js/model/ExposedModel.js:203-212 | a local change is taken down exactly if the listeners are told, the sender listens and the key has a name; then it is posted at once, or with the post after the one on its way; the listeners are told of every composite, of a list exactly if it is another array, and of any other value exactly if it differs |
| Sender.Replica.ChangeInPlace | js/model/ExposedModel.js:311-331 | a list or composite changed in place changes the model, and the sender does not take it down |
| Sender.Replica.Notify | js/model/ExposedModel.js:299-308 | a change that the listeners hear of is taken down, and posted or marked to follow, exactly if no update is being parsed and the key has a name |
| Sender.Replica.Update | js/model/ExposedModelSender.js:54-67 | gathers the key and posts, or marks a post to follow, or does nothing while an update is parsed |
| Sender.Replica.PassiveUpdate | js/model/ExposedModel.js:195-212 | while an update is parsed, a value taken over reaches the sender like a local change does, and the sender stands where it stood; a key that waits for an answer keeps its value |
| Sender.Replica.ParseState | js/model/ExposedModelParser.js:287-338 | the elements up to the first that throws are taken over, and what is thrown is handed on; keys that wait for an answer keep their values; nothing is sent |
| Sender.Replica.TakeServerUpdate | js/model/ExposedModelReceiver.js:66-71 | every key that waits for no answer and is not composite has the last text that an element parsed gave it, every other value is the old one; which element throws, and what: the first whose key is unknown or that is a list without text; a server update sends nothing; the sender listens again exactly if schema, elements and layout could be parsed; what it did to unsettled local changes goes on record |
| Sender.ValuesFit | js/model/ExposedModelParser.js:311-338 | taking the elements over one by one gives each key the last text sent for it, scalar or list, before anything was thrown |
| Sender.OutcomeOfFits | js/model/ExposedModelParser.js:298-338 | the parser stops at the first element whose key is not in the model or that is a list without text, and says which it was |
| Sender.Replica.UpdateComplete | js/model/ExposedModelSender.js:95-109 | posts again exactly if something changed meanwhile, else completes with a post that held the current value of every change taken down |
| Sender.Replica.UpdateError | js/model/ExposedModelSender.js:111-114 | after an error a retry is scheduled and no key is forgotten |
| Sender.Replica.TimerFires | js/model/ExposedModelSender.js:111-114 | a retry posts all keys, or joins the post on its way, or is dropped while an update is parsed |
| Sender.Replica.Settle | js/model/ExposedModelSender.js:95-114 | once changes stop, the retry that is due and two good answers settle everything |
| Sender.Replica.Run | js/model/ExposedModelSender.js:22-114 | over every run every completion announced was right, and no server update overwrote a local change that was taken down and not settled; unless a server update could not be parsed, every change of a key with a name was taken down but those made in place and not handed over as something new, and a post is on its way or a retry scheduled while there is something to send |
| Sender.BadUpdateDeafens | js/model/ExposedModelParser.js:298-338 | after an update that cannot be parsed to its end the next local change is never posted |
| Sender.OwnListIsMissed | js/model/ExposedModel.js:203-212 | a list that is changed in place and handed back is never posted, though the sender listens and the key has a name |
| Sender.OwnCompositeIsPosted | js/model/ExposedModel.js:203-212 | a composite that is changed in place and handed back is posted |
| QueryString.URLHandler.UpdateParams | js/model/URLHandler.js:42-46 | the new parameters override the old ones, key by key |
| QueryString.URLHandler.GetURL | js/model/URLHandler.js:60-71 | the URL, a question mark or an ampersand, and the printed parameters |
| QueryString.TokenizeArgs | src/mod_trell/mod_trell_url_decode.c:56-97 | the loops compute the entries of the C string, token by token, a later key overriding; `EntryOfPair` and `EntryOfFlag` say what a token holds |
| QueryString.CutPair | src/mod_trell/mod_trell_url_decode.c:74-92 | one token: plus signs made spaces, cut at the first equal sign, escapes undone in both parts; what follows is untouched |
| QueryString.EntryOfPair | src/mod_trell/mod_trell_url_decode.c:74-87 | a token with an equal sign holds what is spelled before the first one and after it: every plus sign a space, every other character itself |
| QueryString.EntryOfFlag | src/mod_trell/mod_trell_url_decode.c:88-91 | a token without an equal sign is a key with an empty value |
| QueryString.ArgsJoin | src/mod_trell/mod_trell_url_decode.c:71-95 | what follows an ampersand is read after what stands before it |
| QueryString.ArgsOfPrinted | js/model/URLHandler.js:60-71 | reading printed parameters gives the map of what they spell, with plus signs for spaces and escapes undone |
| QueryString.EscapedRoundTrip | src/mod_trell/mod_trell_url_decode.c:56-97 | from the printed URL the server reads what the URL held before and, over it, all parameters as they are spelled with their escapes undone, for any way to undo escapes, if the URL has no fragment and no NUL in its query |
| QueryString.RoundTrip | js/model/URLHandler.js:60-71 | parameters without percent signs come back as they are, whether their spaces are written as spaces or as plus signs, under the same condition on the URL |
| QueryString.FragmentHides | js/model/URLHandler.js:60-71 | otherwise the server reads nothing but what it read before |

## Left out

- Fatal errors of lock and condition calls, shared-memory set-up, signal masks and logging: the operating system is taken to follow POSIX.
- IpcTheorems.NoLostNotification: for runs in which the main-loop thread notifies only in time, because it is false of the others; `OwnNotificationLostIff` says exactly when.
- IpcTheorems.BreakHappensBetweenTransactions: for other threads only, because a callback may break in the middle of a transaction.
- A second run of the main loop on the same shared memory after it has ended.
- The server's wake-up of clients reaches all waiters of the client event in the model; `ClientEventHasOneWaiter` shows that there is at most one.
- IpcFaultFree.TransactionCost: counts message parts handled, not lock operations or wake-ups.
- Real clocks: a timeout is a step that may happen at any timed wait.
- Trackball.TrackBallManipulator.SetStateTranslation: the entries of the inverse matrix are not computed; what it gives is stated in closed form, which `PickedIff` shows to be the only possibility. At distance zero the code divides by zero, and the model gives the centre of interest.
- The vectors and matrices of the camera are values: that the library writes them into arrays which may be shared is not captured, nor is the rounding of 32-bit floats.
- Png.Encode: the C code multiplies sizes as `int`; the model takes sizes for which nothing overflows, and a decoder for the filter type and colour type the encoder writes.
- JPEG, base64, bundles of several images, and zlib itself.
- Sender: a value in place of an array or a composite stands for its contents; which array it is appears only where a change hands it over, and one array held by two keys is two changes in place. The XML text of a post is the map it stands for, and subscribers to the sender's announcements do not throw.
- Sender.Replica.TakeServerUpdate: an element has at most one piece of text; several are several elements with the same key. The schema of an update brings no new keys, and other listeners do not throw.
- Delivery in the other direction, from server to client, beyond what one update does; the listeners of the model.
- QueryString: escaping by the browser, `addToParams`, and how escapes are undone: that is any function from strings to strings, of which `RoundTrip` assumes that it leaves strings without a percent sign alone.
- GUI widgets, WebGL rendering, proxy geometry, request dispatch and XML validation.
